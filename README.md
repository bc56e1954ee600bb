# Clawdia Monet: the session workflow, modelled in Dafny

Clawdia Monet is a Streamlit app that takes a photo of a cat, asks a Gemini model
whether there is a cat in it, has the model sketch the cat and then paint it from the
sketch. Every browser interaction reruns the script `app()` from the top, and all
progress lives in `st.session_state`, a per-user dictionary with the keys `upload`,
`file`, `image`, `is_cat`, `drawing`, `painting`, `artwork_image_url`, `locale` and
`client`. This project models that dictionary and the functions that read and write
it: the locale gate, the stage dispatcher, the upload gate, the cat check, sketch and
painting stages with their scan over the response parts, and the three button
callbacks. It proves what each of them writes, what each leaves alone, and what
sequences of runs and button presses can reach.

Layout:

- `sessions.dfy` (`Sessions`): the session as a value, one `Option` per key; `Pop`
  (`st.session_state.pop(k, None)`).
- `locale.dfy` (`Locale`): `split('-')[-1].lower()` and the gate at the top of `app()`.
- `dispatcher.dfy` (`Dispatcher`): the if/elif chain that picks the stage.
- `scan.dfy` (`PartScan`): the loop over the parts of a generated response, as a fold,
  with the facts about it.
- `workflows.dfy` (`Workflows`): each stage as a function from the session and the
  outside answers to the new session, how the run ends, the buttons offered and the
  log records sent; `Run` is one execution of `app()`.
- `session_state.dfy` (`SessionStore`): `st.session_state` as a mutable object whose
  methods are the app's functions written step by step, each proved to produce exactly
  what the matching function of `Workflows` or `Sessions` says.
- `journeys.dfy` (`Journeys`): properties of one run and of whole sequences of runs and
  button presses.

The model service, the storage bucket and the image library are not called: what they
answer is a field of `Workflows.Env` (the browser locale, the uploader's value, the
decoded photo, the rescale helper, the cat check verdict, the instruction text, the
generated parts, and the storage outcome for each part). Every lemma holds for all
such answers.

Behaviour of the code that a reader might not expect, and that the model keeps:

- The code has no final stage: a session holding a drawing reruns the painting stage
  on every run.
- A refused MIME type still changes the session: `upload_workflow` stores the picked
  file under `file` (app.py:498) before `open_image_workflow` checks its type
  (app.py:452), so the file is kept (`Journeys.UploadGate`).
- The gate also runs while `locale` holds the string "missing": the code compares
  `get('locale', 'missing')` with `'missing'` (app.py:708).
- Start Over keeps `painting`, `file`, `artwork_image_url`, `locale` and `client`:
  `clear_session` pops only `upload`, `image`, `is_cat` and `drawing`.

## Model

| member | source | states |
|---|---|---|
| Sessions.Pop | app.py:156-159 | `st.session_state.pop(k, None)` for each key of a set, as one value-to-value function; the callbacks at app.py:136 and 146 pop one key each; its properties are the `PopKeys` row |
| Sessions.PopKeys | app.py:156-159 | popping a set of keys with a default removes exactly those keys, leaves every other key holding what it held, and a key already absent is no error |
| Sessions.PopIdempotent | app.py:136 | popping the same keys twice is the same as popping them once |
| Sessions.ResetKeepsPaintingOutOfOrder | app.py:149-159 | after "Start Over" a painting survives without the drawing, verdict and photo it was made from, so the workflow order (painting ⇒ drawing ⇒ verdict ⇒ photo) is broken |
| Locale.LastSegment | app.py:710 | `split('-')[-1]`: the result is a suffix of the locale with no hyphen, preceded by a hyphen unless it is the whole string |
| Locale.Lower | app.py:710 | `lower()` keeps the length and folds each ASCII capital to its small letter, position by position |
| Locale.RegionOf | app.py:710 | the stored region is the last hyphen-separated segment of the browser locale, lowered: a lowered suffix of the locale, containing no hyphen, preceded by a hyphen unless it is the whole locale |
| Locale.LocaleGate | app.py:707-721 | the gate runs only while `locale` is absent or "missing"; it then stores the normalised region before checking it and lets the run go on iff the region is "us"; a browser without a locale stops the run with nothing stored; no other key changes |
| Locale.RegionIsUs | app.py:710-718 | a browser locale passes exactly when its last two characters are "u","s" in any case and form the whole last hyphen-separated segment |
| Locale.EnUsPasses | app.py:708-718 | a browser reporting "en-US" passes and "us" is stored |
| Locale.RejectedRegionSkipsGateLater | app.py:716-721 | a locale stopped by the gate stays stored, so every later run skips the gate and goes on, whatever the browser reports then |
| Dispatcher.Dispatch | app.py:723-743 | the stage choice: upload iff no photo; cat check iff a photo and no verdict; sketch iff a photo, no drawing and a verdict saying cat; painting iff a photo, a verdict (parsed or not) and a drawing; "Start Over" only iff a photo, no drawing and a verdict saying no cat; an AttributeError iff a photo, no drawing and a verdict that did not parse — the six cases are exclusive and cover every session |
| Dispatcher.DispatchReadsThreeKeys | app.py:724-743 | the choice depends on `image`, `is_cat` and `drawing` only |
| PartScan.ImageCountZero | app.py:566-594 | no part counted as an image iff no part carries inline data |
| PartScan.LastImageExists | app.py:566-571 | when some part carries an image, there is a last one |
| PartScan.ScanPart | app.py:569-590 | one iteration of the part loop: a part with inline data puts its image in the stage's key, its upload URL in `artwork_image_url` when the upload succeeded, and appends one log record; its properties are the `ScanLastStep` row |
| PartScan.Scan | app.py:566-590 | the whole part loop of the sketch stage (and of the painting stage, app.py:653-677) as a fold over the parts in order; its properties are the `Scan*` rows |
| PartScan.ScanFrame | app.py:566-590 | the scan changes at most the stage's key and `artwork_image_url` |
| PartScan.ScanLastStep | app.py:566-588 | one part of the loop: a part without inline data changes nothing; an image part puts its image in the stage's key, and its URL in `artwork_image_url` only when its upload succeeded |
| PartScan.ScanKeepsLastImage | app.py:566-571 | the stage's key ends holding the image of the last image part; with no image part it keeps its old value |
| PartScan.ScanKeepsLastUrl | app.py:572-588 | `artwork_image_url` ends holding the URL of the last successful upload; a failed upload is swallowed and, with none successful, the old URL stays |
| PartScan.ScanLogs | app.py:590 | `submit_log` runs once per image part, failed upload or not, tagged "sketch" or "painting" with the browser locale, and the last record carries the URL the session ends with |
| PartScan.ScanSetsSlot | app.py:653-681 | the stage's key is present afterwards iff it was before or some part carried an image, and which image it holds does not depend on the storage outcomes |
| Workflows.Normalize | app.py:470-478 | the resize rule: a photo whose longer edge is at most 1024 keeps its size; a larger one gets the dimensions the rescale helper gives for 1024; the picture is kept |
| Workflows.OpenImage | app.py:446-480 | `image` is written only for a stored file of type image/jpeg or image/png that opened, and then holds the normalised photo; any decode error or other type leaves the session as it was |
| Workflows.Instruct | app.py:266-276 | the instruction helpers return the text iff the call returned non-empty text; an empty text raises a plain exception with the helper's own message, and an APIError is passed up as an APIError with its message |
| Workflows.UploadStep | app.py:483-502 | with nothing picked `upload` is removed and the run stops; a picked file is stored under `upload` and `file` and the script reruns, `image` then holding the normalised photo iff the file was accepted and opened, and its old value otherwise; no button, no log |
| Workflows.CatCheckStep | app.py:505-534 | an APIError stops with "Try Again" and changes nothing; a returned verdict is stored under `is_cat`; then a cat reruns, no cat stops with "Start Over" only, and a verdict that did not parse raises with no button; nothing is logged |
| Workflows.DrawStep | app.py:537-609 | empty instructions escape as an uncaught exception with the session unchanged and no button; an APIError from either call stops with "Try Again" and changes nothing; otherwise the session and log records are those of the part scan into `drawing`, and "Sketch Again", "Start Painting", "Start Over" are offered |
| Workflows.PaintStep | app.py:612-694 | the stage always stops; an APIError or empty instructions, or an APIError from the image call, offer "Try Again" and change nothing; otherwise the session and log records are those of the part scan into `painting`, and "Paint Again", "Start Over" are offered |
| Workflows.RunStage | app.py:723-743 | only the upload and cat check stages rerun, only the sketch and painting stages log; the no-cat branch stops offering "Start Over" alone and the unparsed verdict raises, both leaving the session as it was |
| Workflows.Run | app.py:697-745 | a run the locale gate stops offers no button and logs nothing; a run that reruns was an upload or cat check, and a run that logs was a sketch or painting |
| Workflows.StageOf | app.py:707-743 | a run enters a stage iff the locale gate lets it through, and that stage is the one the session called for before the gate, since the gate writes only `locale` |
| Workflows.UploadWrites | app.py:483-502 | the upload stage writes at most `upload`, `file` and `image` |
| Workflows.CatCheckWrites | app.py:505-534 | the cat check writes at most `is_cat` |
| Workflows.DrawWrites | app.py:537-609 | the sketch stage writes at most `drawing` and `artwork_image_url` |
| Workflows.PaintWrites | app.py:612-694 | the painting stage writes at most `painting` and `artwork_image_url` |
| Workflows.RunWrites | app.py:697-745 | a run writes nothing outside the keys of the stage it runs, apart from the locale the gate stores; a run the gate stops writes nothing else at all |
| SessionStore.SessionState.ClearDrawing | app.py:129-136 | `clear_drawing` leaves the session `Pop`ped of `drawing` only |
| SessionStore.SessionState.ClearPainting | app.py:139-146 | `clear_painting` leaves the session `Pop`ped of `painting` only |
| SessionStore.SessionState.ClearSession | app.py:149-159 | `clear_session` leaves the session `Pop`ped of `upload`, `image`, `is_cat` and `drawing` |
| SessionStore.SessionState.OpenImageWorkflow | app.py:446-480 | `open_image_workflow` changes the session exactly as `Workflows.OpenImage` says |
| SessionStore.SessionState.UploadWorkflow | app.py:483-502 | `upload_workflow` stores a picked file under `upload` and `file`, opens it and reruns; with nothing picked it stops |
| SessionStore.SessionState.CatCheckWorkflow | app.py:505-534 | `cat_check_workflow`: an APIError stops with "Try Again" before `is_cat` is written; a verdict is stored, then a cat reruns, no cat stops with "Start Over", an unparsed verdict raises |
| SessionStore.SessionState.ScanResponse | app.py:566-590 | the part loop leaves the session and the log records exactly as the fold `PartScan.Scan` over all parts gives |
| SessionStore.SessionState.DrawCatWorkflow | app.py:537-609 | `draw_cat_workflow`: an APIError stops with "Try Again" and writes nothing; empty instructions escape as an uncaught exception; otherwise the scan runs and "Sketch Again", "Start Painting", "Start Over" are offered |
| SessionStore.SessionState.PaintCatWorkflow | app.py:612-694 | `paint_cat_workflow`: an APIError or empty instructions stop with "Try Again" and write nothing; otherwise the scan runs and "Paint Again", "Start Over" are offered |
| SessionStore.SessionState.CheckLocale | app.py:707-721 | the locale check at the top of `app()` changes the session as `Locale.LocaleGate` says and goes on exactly when it does |
| SessionStore.SessionState.App | app.py:697-745 | one execution of `app()` produces the session, ending, buttons and log records of `Workflows.Run` |
| Journeys.TryAgainMeansNothingWritten | app.py:517-525 | a run ending with "Try Again" went through the gate into a cat check whose call raised APIError, a sketch whose instruction or image call raised APIError, or a painting whose instructions failed (APIError or empty) or whose image call raised APIError; it wrote nothing but possibly the locale and logged nothing |
| Journeys.VerdictWrittenOnlyByCheck | app.py:517-527 | `is_cat` changes iff the run was a cat check whose call returned, and then holds the returned verdict |
| Journeys.SketchStageDrawing | app.py:550-594 | within the sketch stage, on a session without a drawing, `drawing` is written iff the instructions came back non-empty and the response has an image part, and then holds the last image part's image |
| Journeys.DrawingWrittenOnlyBySketch | app.py:550-594 | `drawing` changes iff the sketch stage got instructions and a response with an image part, and then holds the last image part's image |
| Journeys.PaintingWrittenOnlyByPainting | app.py:625-681 | `painting` changes only in a painting stage that got instructions and a response with an image part, and then holds the last image part's image |
| Journeys.EmptyInstructionsHandledOnlyByPainting | app.py:273-274 | an empty instruction text escapes the sketch stage as an uncaught exception with no button, while the painting stage catches it and offers "Try Again"; neither artefact changes |
| Journeys.UploadGate | app.py:452-502 | in the upload stage `image` is written iff an image/jpeg or image/png file was picked and opened, and then holds the normalised photo; a picked file is stored under `file` whatever its type and the script reruns; only `upload`, `file`, `image` and `locale` can change |
| Journeys.UndecodableUploadReruns | app.py:454-467 | an accepted file that does not open reruns without an image, so the next run is the upload stage again |
| Journeys.OnClick | app.py:601-607 | the buttons' callbacks ("Sketch Again" runs `clear_drawing`; "Start Over" runs `clear_session`, here and at app.py:532 and 692; "Paint Again" runs `clear_painting`, at 689): exactly the callback's keys are gone, every other key keeps its value, and "Start Painting" and "Try Again", having no callback, change nothing |
| Journeys.CallbacksAreFieldLocal | app.py:129-159 | "Sketch Again" and "Paint Again" remove only their own key and are idempotent; after "Start Over" the dispatcher picks the upload stage while every key outside the four popped ones, the painting included, is kept |
| Journeys.RejectedStageIsNeverArt | app.py:740-743 | a session whose verdict says no cat and that has no drawing is never sent to the sketch or painting stage |
| Journeys.RejectedStep | app.py:527-534 | one run or press other than "Start Over" keeps such a session rejected with the same verdict and logs nothing |
| Journeys.RejectionIsSticky | app.py:527-534 | no sequence of runs and presses avoiding "Start Over" ever gives a rejected session a drawing or sends it to sketch or painting |
| Journeys.UnparsedVerdictIsStuck | app.py:732 | when the verdict did not parse and there is no drawing, a run the gate lets through raises AttributeError in the dispatcher, one it stops just stops, and once a locale is stored every run raises; either way it writes nothing but the locale, logs nothing and offers no button, and the session stays in that state, so not even "Start Over" can be pressed again |
| Journeys.SketchRetryAfterFailure | app.py:555-559 | a sketch whose call failed offers "Try Again" with `drawing` unset, and pressing it on a run where the calls succeed stores the drawing |
| Journeys.ScanWithImage | app.py:566-590 | a response with an image part makes the scan log at least one record tagged with the stage and leave the stage's key holding the last image part's image |
| Journeys.FreshUpload | app.py:483-502 | from a fresh session, a browser reporting "en-US" and a jpeg or png that opens: "us" and the normalised photo are stored, no verdict or drawing exists, and the script reruns |
| Journeys.CheckSaysCat | app.py:505-528 | with a locale stored, a photo and no verdict, a cat verdict is stored, nothing else changes and the script reruns |
| Journeys.SketchSucceedsFrom | app.py:537-609 | with a locale stored, a photo, a cat verdict and no drawing, a sketch that gets instructions and an image part stores the drawing, logs "sketch" records (app.py:590), offers its three buttons and keeps the locale, photo and verdict |
| Journeys.PaintingSucceedsFrom | app.py:612-694 | with a locale stored, a photo, a verdict and a drawing, a painting that gets instructions and an image part stores the painting, logs "painting" records (app.py:677) and offers "Paint Again" and "Start Over" |
| Journeys.HappySketch | app.py:697-745 | the first three runs of the journey from a fresh session: upload and rerun, cat verdict and rerun, a sketch storing the last image part, logging "sketch" and offering its three buttons, after which the painting stage is the one the dispatcher picks |
| Journeys.HappyPath | app.py:697-745 | the whole journey from a fresh session is reachable: upload and rerun, cat verdict and rerun, a sketch storing the last image part and logging "sketch", then "Start Painting" into a painting storing its last image part and logging "painting" |

## Left out

- Streamlit rendering (titles, containers, spinners, images, text, warnings, columns)
  is not modelled; `st.rerun()`/`st.stop()` become the `Halt` of a run and the buttons
  become the list a run leaves on the page.
- The Gemini calls (`cat_check`, `instruct_sketch`, `instruct_artist`, `cat_sketch`,
  `cat_paint`), their prompt templates and sampling parameters are answers in `Env`;
  only their outcome kinds (value, APIError, empty text, parts) are modelled.
- `rescale_width_height` is not part of this model; its result is a parameter, so no
  bound on the resized dimensions is claimed. EXIF transposition and bicubic resampling
  are folded into the decoded `Image`.
- Workflows.Normalize: the photo's pixels are abstracted to an integer that a resize keeps.
- Decoding the inline bytes of a generated part is assumed to succeed; an exception
  from `Image.open` there, `candidates[0]` missing, `content` being None, or any other
  exception not named in the code's handlers is not modelled.
- Locale.Lower: folds ASCII capitals only; Python's full Unicode `lower()` is not modelled.
- The uploader widget's own bookkeeping of the `upload` key is modelled as the key
  holding the picked file, or being removed when nothing is picked.
- `submit_log` (storage/db.py:76-89) is modelled as the record it builds, without the
  timestamp and time zone; the Firestore write and `create_new_document`'s error
  handling are not part of this model, nor is storage/gcs.py (the upload outcome is a
  parameter).
- `api_config` (credential lookup) and `process_message` (never called) are not
  modelled; run.py, logging_setup.py and config.py are not part of this model.
- Concurrency between browser tabs is out of scope: each session is a separate value.
