/**
 * The interaction controller of the single-page PDF question-answering
 * client: five pieces of session state and the handlers that change them.
 *
 * Each asynchronous handler is modelled as one atomic method that receives
 * the outcome of its network request as a parameter and returns the ordered
 * trace of what it did: the state setters it called, the alerts it raised
 * and the request it issued. `Replay` folds such a trace over a state, so
 * the state in force at the moment the request is issued (while the handler
 * is suspended on it) can be stated and proved.
 */
module App {
  import opened Wrappers
  import opened JsValues
  import opened BackendApi

  const SELECT_FILE_NOTICE := "Please select a PDF file first!"
  const UPLOAD_OK_DEFAULT := "PDF uploaded successfully!"
  const UPLOAD_FAILED_DEFAULT := "Failed to upload PDF. Check console for details."
  const ENTER_QUESTION_NOTICE := "Please enter a question!"
  const ASK_FAILED_DEFAULT := "Failed to get answer from backend."
  const NO_ANSWER := "No answer received."

  /** `answerType`: `null`, `"answer"` or `"error"`. */
  datatype AnswerType = Null | Answer | Error

  /** A value of the five state variables of the component. */
  datatype State = State(
    pdfFile: Option<PdfFile>,
    question: string,
    answer: string,
    answerType: AnswerType,
    loading: bool)

  /** The state at page load. */
  const INITIAL := State(None, "", "", Null, false)

  /** An answer area is shown as soon as `answer` is truthy. */
  predicate AnswerBoxShown(s: State) {
    s.answer != ""
  }

  /** The answer area is empty exactly when nothing has been classified. */
  predicate Consistent(s: State) {
    (s.answerType == Null) == (s.answer == "")
  }

  /** One observable step of a handler. */
  datatype Effect =
    | SetLoading(on: bool)
    | SetAnswer(text: string)
    | SetAnswerType(kind: AnswerType)
    | Alert(notice: string)
    | Send(request: Request)

  /** One setter call; each setter changes only its own field, and alerts and requests change none. */
  function Step(s: State, e: Effect): (r: State)
    ensures r.pdfFile == s.pdfFile && r.question == s.question
    ensures !e.SetLoading? ==> r.loading == s.loading
    ensures !e.SetAnswer? ==> r.answer == s.answer
    ensures !e.SetAnswerType? ==> r.answerType == s.answerType
  {
    match e
    case SetLoading(on) => s.(loading := on)
    case SetAnswer(text) => s.(answer := text)
    case SetAnswerType(kind) => s.(answerType := kind)
    case Alert(_) => s
    case Send(_) => s
  }

  /** The state after the setters of `effects` run in order; no handler touches the file or the question. */
  function Replay(s: State, effects: seq<Effect>): (t: State)
    ensures t.pdfFile == s.pdfFile && t.question == s.question
    decreases |effects|
  {
    if effects == [] then s else Replay(Step(s, effects[0]), effects[1..])
  }

  /** The requests issued by a trace, in order. */
  function Requests(effects: seq<Effect>): (r: seq<Request>)
  {
    if effects == [] then []
    else (if effects[0].Send? then [effects[0].request] else []) + Requests(effects[1..])
  }

  /** The alerts raised by a trace, in order. */
  function Notices(effects: seq<Effect>): (r: seq<string>)
  {
    if effects == [] then []
    else (if effects[0].Alert? then [effects[0].notice] else []) + Notices(effects[1..])
  }

  /** The state in force when the first request of the trace is issued, if any is. */
  function StateAtRequest(s: State, effects: seq<Effect>): (r: Option<State>)
    ensures r.None? <==> Requests(effects) == []
    decreases |effects|
  {
    if effects == [] then None
    else if effects[0].Send? then Some(s)
    else StateAtRequest(Step(s, effects[0]), effects[1..])
  }

  /** Appending one effect to a trace: one more step of the state. */
  lemma {:induction false} ReplaySnoc(s: State, effects: seq<Effect>, e: Effect)
    ensures Replay(s, effects + [e]) == Step(Replay(s, effects), e)
    decreases |effects|
  {
    if effects == [] {
      assert [] + [e] == [e];
    } else {
      assert (effects + [e])[1..] == effects[1..] + [e];
      ReplaySnoc(Step(s, effects[0]), effects[1..], e);
    }
  }

  /** Appending one effect to a trace: at most one more request. */
  lemma {:induction false} RequestsSnoc(effects: seq<Effect>, e: Effect)
    ensures Requests(effects + [e]) == Requests(effects) + (if e.Send? then [e.request] else [])
    decreases |effects|
  {
    if effects == [] {
      assert [] + [e] == [e];
    } else {
      var head := if effects[0].Send? then [effects[0].request] else [];
      var last := if e.Send? then [e.request] else [];
      assert (effects + [e])[1..] == effects[1..] + [e];
      RequestsSnoc(effects[1..], e);
      assert Requests(effects + [e]) == head + (Requests(effects[1..]) + last);
      assert head + (Requests(effects[1..]) + last) == (head + Requests(effects[1..])) + last;
    }
  }

  /** Appending one effect to a trace: at most one more alert. */
  lemma {:induction false} NoticesSnoc(effects: seq<Effect>, e: Effect)
    ensures Notices(effects + [e]) == Notices(effects) + (if e.Alert? then [e.notice] else [])
    decreases |effects|
  {
    if effects == [] {
      assert [] + [e] == [e];
    } else {
      var head := if effects[0].Alert? then [effects[0].notice] else [];
      var last := if e.Alert? then [e.notice] else [];
      assert (effects + [e])[1..] == effects[1..] + [e];
      NoticesSnoc(effects[1..], e);
      assert Notices(effects + [e]) == head + (Notices(effects[1..]) + last);
      assert head + (Notices(effects[1..]) + last) == (head + Notices(effects[1..])) + last;
    }
  }

  /** Appending one effect to a trace: once a request has gone out, its state stays the answer. */
  lemma {:induction false} StateAtRequestSnoc(s: State, effects: seq<Effect>, e: Effect)
    ensures StateAtRequest(s, effects + [e]) ==
      if StateAtRequest(s, effects).Some? then StateAtRequest(s, effects)
      else if e.Send? then Some(Replay(s, effects))
      else None
    decreases |effects|
  {
    if effects == [] {
      assert [] + [e] == [e];
    } else {
      assert (effects + [e])[1..] == effects[1..] + [e];
      StateAtRequestSnoc(Step(s, effects[0]), effects[1..], e);
    }
  }

  /** The answer area an ask outcome fills in. */
  datatype Outcome = Outcome(text: string, kind: AnswerType)

  /** The classification chain of the ask handler; it always leaves a visible answer or error. */
  function Classify(response: Response): (o: Outcome)
    ensures o.kind != Null && o.text != ""
  {
    match response
    case Thrown => Outcome(ASK_FAILED_DEFAULT, Error)
    case Completed(ok, data) =>
      if !ok then Outcome(Or(data.error, ASK_FAILED_DEFAULT), Error)
      else if Truthy(data.error) then Outcome(data.error.value, Error)
      else if Truthy(data.answer) then Outcome(data.answer.value, Answer)
      else Outcome(NO_ANSWER, Error)
  }

  /** A truthy `error` field yields that error, whatever the status and the `answer` field. */
  lemma ClassifyErrorWins(response: Response)
    requires response.Completed? && Truthy(response.data.error)
    ensures Classify(response) == Outcome(response.data.error.value, Error)
  {
  }

  /** An ask is answered exactly for an ok status, no truthy error and a truthy answer, and shows that answer. */
  lemma ClassifyAnsweredIff(response: Response)
    ensures Classify(response).kind == Answer <==>
      response.Completed? && response.ok && !Truthy(response.data.error) && Truthy(response.data.answer)
    ensures Classify(response).kind == Answer ==> Classify(response).text == response.data.answer.value
  {
  }

  /** The error messages of the remaining cases. */
  lemma ClassifyFailures(response: Response)
    ensures response.Thrown? ==> Classify(response) == Outcome(ASK_FAILED_DEFAULT, Error)
    ensures response.Completed? && !response.ok && !Truthy(response.data.error) ==>
      Classify(response) == Outcome(ASK_FAILED_DEFAULT, Error)
    ensures response.Completed? && response.ok && !Truthy(response.data.error) && !Truthy(response.data.answer) ==>
      Classify(response) == Outcome(NO_ANSWER, Error)
  {
  }

  /** The `message` field never matters to an ask, nor the `answer` field on a non-ok status. */
  lemma ClassifyIgnores(ok: bool, data: Body, answer: Option<string>, message: Option<string>)
    ensures Classify(Completed(ok, data)) == Classify(Completed(ok, data.(message := message)))
    ensures !ok ==> Classify(Completed(ok, data)) == Classify(Completed(ok, data.(answer := answer)))
  {
  }

  /** The alert an upload ends with; it is never empty. */
  function UploadNotice(response: Response): (notice: string)
    ensures notice != ""
  {
    match response
    case Thrown => UPLOAD_FAILED_DEFAULT
    case Completed(ok, data) =>
      if ok then Or(data.message, UPLOAD_OK_DEFAULT) else Or(data.error, UPLOAD_FAILED_DEFAULT)
  }

  /** Where the upload alert comes from, for each kind of outcome. */
  lemma UploadNoticeSources(response: Response)
    ensures response.Thrown? ==> UploadNotice(response) == UPLOAD_FAILED_DEFAULT
    ensures response.Completed? && response.ok ==>
      UploadNotice(response) == (if Truthy(response.data.message) then response.data.message.value else UPLOAD_OK_DEFAULT)
    ensures response.Completed? && !response.ok ==>
      UploadNotice(response) == (if Truthy(response.data.error) then response.data.error.value else UPLOAD_FAILED_DEFAULT)
  {
  }

  /** An ok upload reads only `message`, a failed one only `error`. */
  lemma UploadNoticeIgnores(ok: bool, data: Body, other: Body)
    requires ok ==> other.message == data.message
    requires !ok ==> other.error == data.error
    ensures UploadNotice(Completed(ok, data)) == UploadNotice(Completed(ok, other))
  {
  }

  /** The trace raises `loading` first, clears it last, and touches it nowhere in between. */
  predicate BracketedByLoading(effects: seq<Effect>) {
    |effects| >= 2 && effects[0] == SetLoading(true) && effects[|effects| - 1] == SetLoading(false) &&
    forall i :: 0 < i < |effects| - 1 ==> !effects[i].SetLoading?
  }

  /** The trace does nothing but raise alerts. */
  predicate OnlyAlerts(effects: seq<Effect>) {
    forall i :: 0 <= i < |effects| ==> effects[i].Alert?
  }

  /** The steps of an upload that gets past validation. */
  function UploadTrace(file: PdfFile, notice: string): (r: seq<Effect>)
    ensures BracketedByLoading(r)
    ensures forall i :: 0 <= i < |r| ==> !r[i].SetAnswer? && !r[i].SetAnswerType?
  {
    [SetLoading(true), Send(UploadPdf(file)), Alert(notice), SetLoading(false)]
  }

  /** The trace of `handleUpload` with the file selected at the time and the outcome of its request. */
  function UploadEffects(pdfFile: Option<PdfFile>, response: Response): (r: seq<Effect>)
    ensures pdfFile.None? ==> OnlyAlerts(r)
    ensures pdfFile.Some? ==> BracketedByLoading(r)
  {
    match pdfFile
    case None => [Alert(SELECT_FILE_NOTICE)]
    case Some(file) => UploadTrace(file, UploadNotice(response))
  }

  /** The steps of an ask that gets past validation: those up to the request, then those after its outcome. */
  function AskTrace(question: string, o: Outcome): (r: seq<Effect>)
    ensures BracketedByLoading(r)
  {
    [SetLoading(true), SetAnswer(""), SetAnswerType(Null), Send(AskQuestion(question))] +
    [SetAnswer(o.text), SetAnswerType(o.kind), SetLoading(false)]
  }

  /** The trace of `handleAsk` with the question typed at the time and the outcome of its request. */
  function AskEffects(question: string, response: Response): (r: seq<Effect>)
    ensures Trim(question) == "" ==> OnlyAlerts(r)
    ensures Trim(question) != "" ==> BracketedByLoading(r)
  {
    if Trim(question) == "" then [Alert(ENTER_QUESTION_NOTICE)]
    else AskTrace(question, Classify(response))
  }

  /** What the steps of a validated upload issue and raise. */
  lemma UploadTraceOutputs(file: PdfFile, notice: string)
    ensures Requests(UploadTrace(file, notice)) == [UploadPdf(file)]
    ensures Notices(UploadTrace(file, notice)) == [notice]
  {
    var e0, e1, e2, e3 := SetLoading(true), Send(UploadPdf(file)), Alert(notice), SetLoading(false);
    var t1 := [e0];
    var t2 := t1 + [e1];
    var t3 := t2 + [e2];
    RequestsSnoc([], e0); RequestsSnoc(t1, e1); RequestsSnoc(t2, e2); RequestsSnoc(t3, e3);
    NoticesSnoc([], e0); NoticesSnoc(t1, e1); NoticesSnoc(t2, e2); NoticesSnoc(t3, e3);
    assert t3 + [e3] == UploadTrace(file, notice);
  }

  /** What the steps of a validated upload do to the state. */
  lemma UploadTraceStates(s: State, file: PdfFile, notice: string)
    ensures StateAtRequest(s, UploadTrace(file, notice)) == Some(s.(loading := true))
    ensures Replay(s, UploadTrace(file, notice)) == s.(loading := false)
  {
    var e0, e1, e2, e3 := SetLoading(true), Send(UploadPdf(file)), Alert(notice), SetLoading(false);
    var t1 := [e0];
    var t2 := t1 + [e1];
    var t3 := t2 + [e2];
    ReplaySnoc(s, [], e0); ReplaySnoc(s, t1, e1); ReplaySnoc(s, t2, e2); ReplaySnoc(s, t3, e3);
    StateAtRequestSnoc(s, [], e0); StateAtRequestSnoc(s, t1, e1);
    StateAtRequestSnoc(s, t2, e2); StateAtRequestSnoc(s, t3, e3);
    assert t3 + [e3] == UploadTrace(file, notice);
  }

  /** What the steps of a validated ask issue and raise. */
  lemma AskTraceOutputs(question: string, o: Outcome)
    ensures Requests(AskTrace(question, o)) == [AskQuestion(question)]
    ensures Notices(AskTrace(question, o)) == []
  {
    var e0, e1, e2, e3 := SetLoading(true), SetAnswer(""), SetAnswerType(Null), Send(AskQuestion(question));
    var e4, e5, e6 := SetAnswer(o.text), SetAnswerType(o.kind), SetLoading(false);
    var t1 := [e0];
    var t2 := t1 + [e1];
    var t3 := t2 + [e2];
    var t4 := t3 + [e3];
    var t5 := t4 + [e4];
    var t6 := t5 + [e5];
    RequestsSnoc([], e0); RequestsSnoc(t1, e1); RequestsSnoc(t2, e2); RequestsSnoc(t3, e3);
    RequestsSnoc(t4, e4); RequestsSnoc(t5, e5);
    RequestsSnoc(t6, e6);
    NoticesSnoc([], e0); NoticesSnoc(t1, e1); NoticesSnoc(t2, e2); NoticesSnoc(t3, e3);
    NoticesSnoc(t4, e4); NoticesSnoc(t5, e5);
    NoticesSnoc(t6, e6);
    assert t6 + [e6] == AskTrace(question, o);
  }

  /** The state in force when a validated ask's request goes out. */
  lemma AskTraceAtRequest(s: State, question: string, o: Outcome)
    ensures StateAtRequest(s, AskTrace(question, o)) == Some(s.(answer := "", answerType := Null, loading := true))
  {
    var e0, e1, e2, e3 := SetLoading(true), SetAnswer(""), SetAnswerType(Null), Send(AskQuestion(question));
    var e4, e5, e6 := SetAnswer(o.text), SetAnswerType(o.kind), SetLoading(false);
    var t1 := [e0];
    var t2 := t1 + [e1];
    var t3 := t2 + [e2];
    var t4 := t3 + [e3];
    var t5 := t4 + [e4];
    var t6 := t5 + [e5];
    ReplaySnoc(s, [], e0); ReplaySnoc(s, t1, e1); ReplaySnoc(s, t2, e2);
    StateAtRequestSnoc(s, [], e0); StateAtRequestSnoc(s, t1, e1); StateAtRequestSnoc(s, t2, e2);
    StateAtRequestSnoc(s, t3, e3); StateAtRequestSnoc(s, t4, e4);
    StateAtRequestSnoc(s, t5, e5); StateAtRequestSnoc(s, t6, e6);
    assert t6 + [e6] == AskTrace(question, o);
  }

  /** The state after a validated ask. */
  lemma AskTraceFinal(s: State, question: string, o: Outcome)
    ensures Replay(s, AskTrace(question, o)) == s.(answer := o.text, answerType := o.kind, loading := false)
  {
    var e0, e1, e2, e3 := SetLoading(true), SetAnswer(""), SetAnswerType(Null), Send(AskQuestion(question));
    var e4, e5, e6 := SetAnswer(o.text), SetAnswerType(o.kind), SetLoading(false);
    var t1 := [e0];
    var t2 := t1 + [e1];
    var t3 := t2 + [e2];
    var t4 := t3 + [e3];
    var t5 := t4 + [e4];
    var t6 := t5 + [e5];
    ReplaySnoc(s, [], e0); ReplaySnoc(s, t1, e1); ReplaySnoc(s, t2, e2); ReplaySnoc(s, t3, e3);
    ReplaySnoc(s, t4, e4); ReplaySnoc(s, t5, e5);
    ReplaySnoc(s, t6, e6);
    assert t6 + [e6] == AskTrace(question, o);
  }

  /** Uploading with no file selected only raises the "select a file" alert. */
  lemma UploadWithoutFile(s: State, response: Response)
    requires s.pdfFile.None?
    ensures Requests(UploadEffects(s.pdfFile, response)) == []
    ensures Notices(UploadEffects(s.pdfFile, response)) == [SELECT_FILE_NOTICE]
    ensures Replay(s, UploadEffects(s.pdfFile, response)) == s
  {
  }

  /**
   * An upload with a file issues one request, for that file, with `loading`
   * true while it is out, raises one alert, and afterwards differs from the
   * state before only in `loading` being false.
   */
  lemma UploadBracketsRequest(s: State, response: Response)
    requires s.pdfFile.Some?
    ensures Requests(UploadEffects(s.pdfFile, response)) == [UploadPdf(s.pdfFile.value)]
    ensures Notices(UploadEffects(s.pdfFile, response)) == [UploadNotice(response)]
    ensures StateAtRequest(s, UploadEffects(s.pdfFile, response)) == Some(s.(loading := true))
    ensures Replay(s, UploadEffects(s.pdfFile, response)) == s.(loading := false)
  {
    UploadTraceOutputs(s.pdfFile.value, UploadNotice(response));
    UploadTraceStates(s, s.pdfFile.value, UploadNotice(response));
  }

  /** An empty or all-white question only raises the "enter a question" alert. */
  lemma AskBlank(s: State, response: Response)
    requires IsBlank(s.question)
    ensures Requests(AskEffects(s.question, response)) == []
    ensures Notices(AskEffects(s.question, response)) == [ENTER_QUESTION_NOTICE]
    ensures Replay(s, AskEffects(s.question, response)) == s
  {
    TrimEmptyIffBlank(s.question);
    var e := Alert(ENTER_QUESTION_NOTICE);
    RequestsSnoc([], e);
    NoticesSnoc([], e);
    ReplaySnoc(s, [], e);
  }

  /**
   * A valid ask issues one request, carrying the question as typed, and no
   * alert; when the request goes out the answer area has been cleared and
   * `loading` raised, whatever came before; afterwards the classified outcome
   * is in the answer area and `loading` is false, and nothing else changed.
   */
  lemma AskValid(s: State, response: Response)
    requires !IsBlank(s.question)
    ensures Requests(AskEffects(s.question, response)) == [AskQuestion(s.question)]
    ensures Notices(AskEffects(s.question, response)) == []
    ensures StateAtRequest(s, AskEffects(s.question, response)) ==
      Some(s.(answer := "", answerType := Null, loading := true))
    ensures Replay(s, AskEffects(s.question, response)) ==
      s.(answer := Classify(response).text, answerType := Classify(response).kind, loading := false)
  {
    TrimEmptyIffBlank(s.question);
    var o := Classify(response);
    AskTraceOutputs(s.question, o);
    AskTraceAtRequest(s, s.question, o);
    AskTraceFinal(s, s.question, o);
  }

  /** After a valid ask the answer area always shows something, labelled answer or error. */
  lemma AskTotal(s: State, response: Response)
    requires !IsBlank(s.question)
    ensures var t := Replay(s, AskEffects(s.question, response));
      t.answerType != Null && AnswerBoxShown(t) && Consistent(t)
  {
    AskValid(s, response);
  }

  /** Both handlers, on every path, leave `loading` false when it was false to begin with. */
  lemma HandlersEndIdle(s: State, response: Response)
    requires !s.loading
    ensures !Replay(s, UploadEffects(s.pdfFile, response)).loading
    ensures !Replay(s, AskEffects(s.question, response)).loading
  {
    if s.pdfFile.None? { UploadWithoutFile(s, response); } else { UploadBracketsRequest(s, response); }
    if IsBlank(s.question) { AskBlank(s, response); } else { AskValid(s, response); }
  }

  /** Every handler keeps the answer area consistent, also at the moment its request is issued. */
  lemma HandlersKeepConsistent(s: State, response: Response)
    requires Consistent(s)
    ensures Consistent(Replay(s, UploadEffects(s.pdfFile, response)))
    ensures Consistent(Replay(s, AskEffects(s.question, response)))
    ensures var m := StateAtRequest(s, UploadEffects(s.pdfFile, response)); m.Some? ==> Consistent(m.value)
    ensures var m := StateAtRequest(s, AskEffects(s.question, response)); m.Some? ==> Consistent(m.value)
  {
    if s.pdfFile.None? { UploadWithoutFile(s, response); } else { UploadBracketsRequest(s, response); }
    if IsBlank(s.question) { AskBlank(s, response); }
    else { AskValid(s, response); }
  }

  /** The live session state of the `App` component. */
  class Session {
    var pdfFile: Option<PdfFile>
    var question: string
    var answer: string
    var answerType: AnswerType
    var loading: bool

    function Snapshot(): (s: State)
      reads this
    {
      State(pdfFile, question, answer, answerType, loading)
    }

    ghost predicate Valid()
      reads this
    {
      Consistent(Snapshot())
    }

    constructor ()
      ensures Valid() && Snapshot() == INITIAL
    {
      pdfFile := None;
      question := "";
      answer := "";
      answerType := Null;
      loading := false;
    }

    /** `handleFileChange`: the first selected file, or none when the selection is empty. */
    method HandleFileChange(files: seq<PdfFile>)
      requires Valid()
      modifies this
      ensures Valid()
      ensures Snapshot() == old(Snapshot()).(pdfFile := if files == [] then None else Some(files[0]))
    {
      pdfFile := if files == [] then None else Some(files[0]);
    }

    /** The question input's change handler. */
    method SetQuestion(text: string)
      requires Valid()
      modifies this
      ensures Valid()
      ensures Snapshot() == old(Snapshot()).(question := text)
    {
      question := text;
    }

    /** `handleUpload`, given the outcome of its request; each step is logged as it is taken. */
    method HandleUpload(response: Response) returns (effects: seq<Effect>, ghost atRequest: Option<State>)
      requires Valid() && !loading
      modifies this
      ensures Valid() && !loading
      ensures effects == UploadEffects(old(pdfFile), response)
      ensures Snapshot() == Replay(old(Snapshot()), effects)
      ensures atRequest == StateAtRequest(old(Snapshot()), effects)
      ensures pdfFile == old(pdfFile) && question == old(question)
      ensures answer == old(answer) && answerType == old(answerType)
    {
      ghost var s0 := Snapshot();
      if pdfFile.None? {
        effects := [Alert(SELECT_FILE_NOTICE)];
        atRequest := None;
        UploadWithoutFile(s0, response);
        return;
      }
      var file := pdfFile.value;
      loading := true;
      effects := [SetLoading(true)];
      atRequest := Some(Snapshot());
      effects := effects + [Send(UploadPdf(file))];
      var notice := UploadNotice(response);
      effects := effects + [Alert(notice)];
      loading := false;
      effects := effects + [SetLoading(false)];
      UploadBracketsRequest(s0, response);
    }

    /** `handleAsk`, given the outcome of its request; each step is logged as it is taken. */
    method HandleAsk(response: Response) returns (effects: seq<Effect>, ghost atRequest: Option<State>)
      requires Valid() && !loading
      modifies this
      ensures Valid() && !loading
      ensures effects == AskEffects(old(question), response)
      ensures Snapshot() == Replay(old(Snapshot()), effects)
      ensures atRequest == StateAtRequest(old(Snapshot()), effects)
      ensures IsBlank(old(question)) ==> Snapshot() == old(Snapshot())
      ensures !IsBlank(old(question)) ==> answerType != Null && answer != ""
    {
      ghost var s0 := Snapshot();
      var q := question;
      if Trim(q) == "" {
        effects := [Alert(ENTER_QUESTION_NOTICE)];
        atRequest := None;
        TrimEmptyIffBlank(q);
        AskBlank(s0, response);
        return;
      }
      loading := true;
      answer := "";
      answerType := Null;
      atRequest := Some(Snapshot());
      effects := [SetLoading(true), SetAnswer(""), SetAnswerType(Null), Send(AskQuestion(q))];
      var outcome := Classify(response);
      answer := outcome.text;
      answerType := outcome.kind;
      loading := false;
      effects := effects + [SetAnswer(outcome.text), SetAnswerType(outcome.kind), SetLoading(false)];
      TrimEmptyIffBlank(q);
      AskValid(s0, response);
    }
  }
}
