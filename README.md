# PDF question-answering client: interaction controller

This project models the client-side controller of a single-page app.
With the app, a user uploads a PDF to a question-answering service and then asks questions about it.
The controller is the `App` component in `frontend/src/App.jsx`.
It holds five pieces of session state: the selected file, the question text, the answer text, the answer type (`null`, `"answer"` or `"error"`) and a `loading` flag.
It has three handlers: file selection, upload and ask.

Modules:

- `Wrappers` (`wrappers.dfy`): the `Option` type. It stands for a property that may be absent.
- `JsValues` (`js_values.dfy`): the JavaScript semantics the handlers rely on.
  - `String.prototype.trim` is modelled over ECMAScript's white-space and line-terminator characters.
  - The truthiness of an optional string field means present and non-empty.
  - The `a || b` fallback is modelled on those fields.
- `BackendApi` (`backend_api.dfy`): what the client observes of one request.
  - `Thrown` covers three cases: `fetch` rejected, `response.json()` rejected, or the body was JSON `null`. All three land in the same `catch`.
  - `Completed(ok, data)` holds `response.ok` and the parsed `error`, `answer` and `message` fields.
  - The request payloads are also here: the uploaded file, and the question as typed.
- `App` (`app.dfy`): the controller.
  - `App.Session` is a class with the five fields.
  - Each handler is a method. It takes its request's outcome as a parameter and returns the ordered trace of what it did: the setter calls, the `alert`s and the request it issued.
  - The pure functions `UploadEffects` and `AskEffects` specify those traces.
  - `Replay` folds a trace over a `State` value.
  - `StateAtRequest` gives the state in force when the request goes out. That is the state the page shows while the handler waits.
  - Each method's contract says that its trace is exactly the specified one and that its new state is the replay of that trace.
  - The lemmas state the controller's properties over these functions:
    - validation failures change nothing;
    - the answer area is reset before a request;
    - the answer classification is total and follows a fixed precedence;
    - `loading` always ends false;
    - the answer area stays consistent (empty exactly when unclassified).

The handlers do not check `loading` themselves. The page disables both buttons while it is true. The model states that gating as `requires !loading` on `HandleUpload` and `HandleAsk`.

On a non-ok upload the alert is the service's `error` field when it is truthy, and otherwise the default "Failed to upload PDF. Check console for details."; a thrown request always gets that default (`frontend/src/App.jsx:37`, `frontend/src/App.jsx:41`). `UploadNoticeSources` states this.

## Model

| member | source | states |
|---|---|---|
| `JsValues.TrimStart` | frontend/src/App.jsx:48 | Leading white space is removed. The result is no longer than the input, keeps its last character, and is empty or starts with a non-white character. |
| `JsValues.TrimEnd` | frontend/src/App.jsx:48 | Trailing white space is removed. The result is no longer than the input, keeps its first character, and is empty or ends with a non-white character. |
| `JsValues.Trim` | frontend/src/App.jsx:48 | `trim()` leaves a string that is empty or both starts and ends with a non-white character. |
| `JsValues.TrimStartRemovesWhitePrefix` | frontend/src/App.jsx:48 | What the leading strip removes is a prefix made only of white space, and the rest is an unchanged suffix. |
| `JsValues.TrimEndRemovesWhiteSuffix` | frontend/src/App.jsx:48 | What the trailing strip removes is a suffix made only of white space, and the rest is an unchanged prefix. |
| `JsValues.TrimStartEmptyIffBlank` | frontend/src/App.jsx:48 | The leading strip leaves nothing exactly when the string is all white space. |
| `JsValues.TrimEndEmptyIffBlank` | frontend/src/App.jsx:48 | The trailing strip leaves nothing exactly when the string is all white space. |
| `JsValues.TrimEmptyIffBlank` | frontend/src/App.jsx:48 | `!question.trim()` holds exactly when the question is empty or only white space. |
| `JsValues.Truthy` | frontend/src/App.jsx:69-75 | An absent field (`undefined`) and an empty string are falsy. |
| `JsValues.Or` | frontend/src/App.jsx:69 | The `data.error` fallback expression is the field when it is truthy and the fallback otherwise. It is non-empty whenever the fallback is. |
| `App.Step` | frontend/src/App.jsx:53-55 | Each setter call (`setLoading`, `setAnswer`, `setAnswerType`) changes only its own field. Alerts and requests change no state, and no step changes the file or the question. |
| `App.Replay` | frontend/src/App.jsx:4-8 | Running a handler's setter calls never changes the selected file or the question. |
| `App.StateAtRequest` | frontend/src/App.jsx:27 | A trace has a state "at the request" exactly when it issues a request. |
| `App.ReplaySnoc` | frontend/src/App.jsx:4-8 | Appending one setter call to a trace is one more state step. |
| `App.Classify` | frontend/src/App.jsx:66-86 | Every ask outcome, of any shape, ends classified as answer or error, never `null`, with non-empty text. |
| `App.ClassifyErrorWins` | frontend/src/App.jsx:66-74 | A completed response with a truthy `error` field gives an error with exactly that text. This holds for any status and even when `answer` is also present. |
| `App.ClassifyAnsweredIff` | frontend/src/App.jsx:66-77 | The outcome is an answer exactly when the status is ok, `error` is not truthy and `answer` is truthy. The text shown is then that answer. |
| `App.ClassifyFailures` | frontend/src/App.jsx:66-86 | A thrown request gives "Failed to get answer from backend.". So does a non-ok status without an error field. An ok response with neither field gives "No answer received.". |
| `App.ClassifyIgnores` | frontend/src/App.jsx:66-82 | The `message` field never affects an ask outcome. On a non-ok status the `answer` field does not affect it either. |
| `App.UploadNotice` | frontend/src/App.jsx:33-41 | Every upload ends with a non-empty alert. |
| `App.UploadNoticeSources` | frontend/src/App.jsx:33-41 | Thrown gives the failure default. Ok gives `message` or "PDF uploaded successfully!". Non-ok gives `error` or "Failed to upload PDF. Check console for details.". |
| `App.UploadNoticeIgnores` | frontend/src/App.jsx:33-37 | An ok upload's alert depends only on `message`. A non-ok upload's alert depends only on `error`. |
| `App.UploadTrace` | frontend/src/App.jsx:22-43 | The steps of an upload past validation raise `loading` first and clear it last, touch it nowhere in between, and never set the answer or its type. |
| `App.UploadEffects` | frontend/src/App.jsx:16-44 | With no file the upload handler only raises alerts. With a file its steps are bracketed by `loading`. |
| `App.AskTrace` | frontend/src/App.jsx:53-89 | The steps of an ask past validation raise `loading` first, clear it last, and touch it nowhere in between. |
| `App.AskEffects` | frontend/src/App.jsx:47-90 | With a blank question the ask handler only raises alerts. Otherwise its steps are bracketed by `loading`. |
| `App.UploadWithoutFile` | frontend/src/App.jsx:17-20 | With no file selected, an upload issues no request and raises only "Please select a PDF file first!". The state is unchanged. |
| `App.UploadBracketsRequest` | frontend/src/App.jsx:22-43 | With a file selected, an upload issues one request for that file while `loading` is true. It raises one alert, the outcome's notice. Afterwards only `loading` differs from before, and it is false. |
| `App.AskBlank` | frontend/src/App.jsx:48-51 | An empty or all-white question issues no request and raises only "Please enter a question!". The state is unchanged. |
| `App.AskValid` | frontend/src/App.jsx:53-89 | Any other question issues one request carrying the question as typed, and raises no alert. When the request goes out, `answer` is "", `answerType` is `null` and `loading` is true, whatever the state before. Afterwards the classified outcome fills the answer area, `loading` is false, and nothing else changed. |
| `App.AskTotal` | frontend/src/App.jsx:66-89 | After a valid ask, `answerType` is not `null` and the answer box renders. |
| `App.HandlersEndIdle` | frontend/src/App.jsx:16-90 | Both handlers, on every path, end with `loading` false. |
| `App.HandlersKeepConsistent` | frontend/src/App.jsx:47-90 | Both handlers keep "answer empty exactly when `answerType` is `null`". This holds after they finish and also while their request is out. |
| `App.Session.constructor` | frontend/src/App.jsx:4-8 | The session starts with no file, an empty question and answer, `answerType` `null` and `loading` false. |
| `App.Session.HandleFileChange` | frontend/src/App.jsx:11-13 | The selected file becomes the first file chosen, or none when the selection is empty. Nothing else changes. |
| `App.Session.SetQuestion` | frontend/src/App.jsx:110 | The question becomes the typed text. Nothing else changes. |
| `App.Session.HandleUpload` | frontend/src/App.jsx:16-44 | The upload handler's trace is exactly `UploadEffects` for the selected file. The new state is that trace replayed. The field values it holds when it sends the request are the trace's `StateAtRequest`. `loading` ends false, and the file, question and answer area are untouched. |
| `App.Session.HandleAsk` | frontend/src/App.jsx:47-90 | The ask handler's trace is exactly `AskEffects` for the question. The new state is that trace replayed. The field values it holds when it sends the request are the trace's `StateAtRequest`. A blank question changes nothing. Any other question ends with a non-`null` type and non-empty answer, and `loading` false. |

## Left out

- `backend/app.py` is not part of this model. It is the service's routing, file handling and calls into document-loading, embedding and language-model libraries. Its error bodies, such as `{"error": "Upload a PDF first."}`, are covered as possible `error` values of `Completed`.
- `fetch`, `FormData`, `JSON.stringify`, the URLs and HTTP status codes are replaced by the `Response` parameter. Only `response.ok` is kept. The request is recorded as its payload: `UploadPdf(file)` or `AskQuestion(question)`.
- `console.error` calls are left out, because they do not affect state or what the user sees.
- `alert` is modelled as an `Alert` effect in the returned trace. It is not state.
- Async interleaving is not modelled. Each handler runs as one atomic method. So the model does not cover typing a new question or picking another file while a request is out. The in-flight state is visible only as `StateAtRequest`.
- A request that never settles is not modelled. The code has no timeout, so a hung `fetch` leaves the handler in its `StateAtRequest` state for good: `loading` stays true and both buttons stay disabled. Every `Response` in the model is a settled outcome, so `HandlersEndIdle` holds only for requests that settle.
- The handlers do not check `loading` themselves. The disabled buttons are stated as `requires !loading` on `HandleUpload` and `HandleAsk`.
- React's batching and re-rendering are not modelled. Setter calls take effect in order.
- JSON fields whose value is not a string, such as a number, an object or `false`, are not modelled. `error`, `answer` and `message` are absent or strings. A body that is JSON `null` is part of `Thrown`.
- The model works on Unicode scalar values, not UTF-16 code units. No white-space character lies outside the Basic Multilingual Plane, so `trim` behaves the same. Lone surrogates cannot be represented.
- The render function, button labels and the `styles` object are left out. They are presentation only. The one render condition used, "the answer box shows when `answer` is truthy", is `AnswerBoxShown`.
