/** One run of the app script as a transition `(session, oracle answers) -> (session,
    halt, buttons offered, log records)`: the locale gate, the dispatcher, then the
    stage workflow it picks. The image library, the model service and the storage
    bucket are answers supplied in `Env`. */
module Workflows {
  import opened Sessions
  import opened Locale
  import opened Dispatcher
  import opened PartScan

  /** The MIME types the upload gate lets through. */
  const JpegType: string := "image/jpeg"
  const PngType: string := "image/png"

  /** The longest edge an uploaded photo may keep. */
  const MaxEdge: nat := 1024

  /** The messages of the exceptions `instruct_sketch` and `instruct_artist` raise on an
      empty answer. */
  const SketchNotesEmpty: string := "Drawing instructions error"
  const PaintNotesEmpty: string := "Painting instructions error"

  /** What opening the uploaded file with the image library gives: an image (already
      turned upright from its EXIF orientation) or one of the four errors the upload
      gate catches. */
  datatype Decoded = Opened(image: Image) | FileNotFound | UnidentifiedImage | ReadError | InvalidMode

  /** The cat check call: the response's `parsed` field, or an APIError. */
  datatype CheckReply = Parsed(verdict: Verdict) | CheckApiError(message: string)

  /** An instruction call: the response text ("" also stands for no text), or an APIError. */
  datatype TextReply = Text(text: string) | TextApiError(message: string)

  /** An image generation call: the parts of the first candidate, or an APIError. */
  datatype GenReply = Parts(parts: seq<Part>) | GenApiError(message: string)

  /** What `instruct_sketch` / `instruct_artist` hand back to their caller. */
  datatype Instructed = Instructions(text: string) | InstructApiError(message: string) | InstructEmpty(message: string)

  /** An exception that escapes the script and ends the run with a traceback. */
  datatype Fault = NoVerdict | Uncaught(message: string)

  /** How a run ends: `st.rerun()`, `st.stop()`, or an escaped exception. */
  datatype Halt = Rerun | Stop | Raised(fault: Fault)

  /** The buttons a run leaves on the page. */
  datatype Button = TryAgain | StartOver | SketchAgain | StartPainting | PaintAgain

  datatype RunResult = RunResult(session: Session, halt: Halt, buttons: seq<Button>, logs: seq<LogRecord>)

  /** Everything a run learns from outside the session. `rescale` stands for
      `rescale_width_height(width, height, size)`; `store(i)` is the storage upload of
      the image in part `i` (`None` when it raised). */
  datatype Env = Env(
    context: Option<string>,         // st.context.locale
    picked: Option<UploadedFile>,    // the uploader widget's value
    decoded: Decoded,                // opening st.session_state.file
    rescale: (nat, nat, nat) -> (nat, nat),
    verdict: CheckReply,             // cat_check
    notes: TextReply,                // instruct_sketch or instruct_artist
    reply: GenReply,                 // cat_sketch or cat_paint
    store: nat -> Option<string>)    // upload_pil_image_to_gcs_and_get_url

  // ---- upload gate -------------------------------------------------------------

  function LongestEdge(img: Image): nat
  {
    if img.width >= img.height then img.width else img.height
  }

  /** The resize rule: a photo whose longer edge is within the limit keeps its size;
      a larger one is resized to what `rescale` gives for the limit. */
  function Normalize(img: Image, rescale: (nat, nat, nat) -> (nat, nat)): (r: Image)
    ensures r.picture == img.picture
    ensures LongestEdge(img) <= MaxEdge ==> r == img
    ensures LongestEdge(img) > MaxEdge ==> (r.width, r.height) == rescale(img.width, img.height, MaxEdge)
  {
    if LongestEdge(img) > MaxEdge then
      var (w, h) := rescale(img.width, img.height, MaxEdge);
      Image(w, h, img.picture)
    else img
  }

  predicate AcceptedType(f: Option<UploadedFile>)
  {
    f.Some? && (f.value.mimeType == JpegType || f.value.mimeType == PngType)
  }

  /** `open_image_workflow`: 'image' is written only for a stored file of an accepted
      type that opened; any decode error or other type leaves the session as it was. */
  function OpenImage(s: Session, decoded: Decoded, rescale: (nat, nat, nat) -> (nat, nat)): (r: Session)
    ensures forall k :: k != ImageKey ==> Agree(r, s, k)
    ensures !AcceptedType(s.file) || !decoded.Opened? ==> r == s
    ensures AcceptedType(s.file) && decoded.Opened? ==> r.image == Some(Normalize(decoded.image, rescale))
  {
    if AcceptedType(s.file) && decoded.Opened? then s.(image := Some(Normalize(decoded.image, rescale)))
    else s
  }

  // ---- stages --------------------------------------------------------------------

  /** `upload_workflow`: a picked file is stored under 'upload' and 'file' before the
      gate looks at its type, then the script reruns; 'image' is written only for an
      accepted file that opened. With nothing picked the run stops. */
  function UploadStep(s: Session, picked: Option<UploadedFile>, decoded: Decoded,
                      rescale: (nat, nat, nat) -> (nat, nat)): (r: RunResult)
    ensures r.buttons == [] && r.logs == []
    ensures picked.None? ==> r.halt == Stop && r.session == s.(upload := None)
    ensures picked.Some? ==> r.halt == Rerun && r.session.upload == picked && r.session.file == picked
    ensures picked.Some? && AcceptedType(picked) && decoded.Opened? ==>
              r.session.image == Some(Normalize(decoded.image, rescale))
    ensures picked.Some? && !(AcceptedType(picked) && decoded.Opened?) ==> r.session.image == s.image
  {
    match picked
    case None => RunResult(s.(upload := None), Stop, [], [])
    case Some(f) => RunResult(OpenImage(s.(upload := Some(f), file := Some(f)), decoded, rescale), Rerun, [], [])
  }

  /** `cat_check_workflow`: an APIError stops with "Try Again" before 'is_cat' is
      written; a returned verdict is stored, then a cat reruns, no cat stops with only
      "Start Over", and a verdict that did not parse raises when its flag is read. */
  function CatCheckStep(s: Session, reply: CheckReply): (r: RunResult)
    ensures r.logs == []
    ensures reply.CheckApiError? ==> r == RunResult(s, Stop, [TryAgain], [])
    ensures reply.Parsed? ==> r.session == s.(isCat := Some(reply.verdict))
    ensures reply == Parsed(Unparsed) ==> r.halt == Raised(NoVerdict) && r.buttons == []
    ensures reply.Parsed? && reply.verdict.Judged? ==>
              if reply.verdict.isCat then r.halt == Rerun && r.buttons == []
              else r.halt == Stop && r.buttons == [StartOver]
  {
    match reply
    case CheckApiError(_) => RunResult(s, Stop, [TryAgain], [])
    case Parsed(v) =>
      var checked := s.(isCat := Some(v));
      match v
      case Unparsed => RunResult(checked, Raised(NoVerdict), [], [])
      case Judged(isCat, _) =>
        if isCat then RunResult(checked, Rerun, [], [])
        else RunResult(checked, Stop, [StartOver], [])
  }

  /** The instruction helpers: an APIError is re-raised, an empty text raises a plain
      exception with the helper's message. */
  function Instruct(reply: TextReply, emptyMessage: string): (r: Instructed)
    ensures r.Instructions? <==> reply.Text? && reply.text != ""
    ensures r.Instructions? ==> r.text == reply.text
    ensures r.InstructEmpty? ==> r.message == emptyMessage
    ensures reply == Text("") ==> r == InstructEmpty(emptyMessage)
    ensures reply.TextApiError? ==> r == InstructApiError(reply.message)
  {
    match reply
    case TextApiError(m) => InstructApiError(m)
    case Text(t) => if t == "" then InstructEmpty(emptyMessage) else Instructions(t)
  }

  /** `draw_cat_workflow`. Its handler catches only APIError, so the plain exception of
      an empty instruction text escapes the script with no button on the page. */
  function DrawStep(s: Session, notes: TextReply, reply: GenReply,
                    store: nat -> Option<string>, locale: Option<string>): (r: RunResult)
    ensures notes == Text("") ==> r == RunResult(s, Raised(Uncaught(SketchNotesEmpty)), [], [])
    ensures notes.TextApiError? || (notes.Text? && notes.text != "" && reply.GenApiError?) ==>
              r == RunResult(s, Stop, [TryAgain], [])
    ensures notes.Text? && notes.text != "" && reply.Parts? ==>
              && r.halt == Stop && r.buttons == [SketchAgain, StartPainting, StartOver]
              && Scanned(r.session, r.logs) == Scan(s, DrawingSlot, reply.parts, store, locale)
  {
    match Instruct(notes, SketchNotesEmpty)
    case InstructApiError(_) => RunResult(s, Stop, [TryAgain], [])
    case InstructEmpty(m) => RunResult(s, Raised(Uncaught(m)), [], [])
    case Instructions(_) =>
      match reply
      case GenApiError(_) => RunResult(s, Stop, [TryAgain], [])
      case Parts(ps) =>
        var scanned := Scan(s, DrawingSlot, ps, store, locale);
        RunResult(scanned.session, Stop, [SketchAgain, StartPainting, StartOver], scanned.logs)
  }

  /** `paint_cat_workflow`. Both kinds of instruction failure are caught here, so the
      stage always ends with `st.stop()`. */
  function PaintStep(s: Session, notes: TextReply, reply: GenReply,
                     store: nat -> Option<string>, locale: Option<string>): (r: RunResult)
    ensures r.halt == Stop
    ensures notes.TextApiError? || notes == Text("") || reply.GenApiError? ==>
              r == RunResult(s, Stop, [TryAgain], [])
    ensures notes.Text? && notes.text != "" && reply.Parts? ==>
              && r.buttons == [PaintAgain, StartOver]
              && Scanned(r.session, r.logs) == Scan(s, PaintingSlot, reply.parts, store, locale)
  {
    match Instruct(notes, PaintNotesEmpty)
    case InstructApiError(_) => RunResult(s, Stop, [TryAgain], [])
    case InstructEmpty(_) => RunResult(s, Stop, [TryAgain], [])
    case Instructions(_) =>
      match reply
      case GenApiError(_) => RunResult(s, Stop, [TryAgain], [])
      case Parts(ps) =>
        var scanned := Scan(s, PaintingSlot, ps, store, locale);
        RunResult(scanned.session, Stop, [PaintAgain, StartOver], scanned.logs)
  }

  /** The if/elif chain of `app()` and the stage it runs: only the upload and the cat
      check rerun the script, only the sketch and the painting log. */
  function RunStage(t: Session, env: Env): (r: RunResult)
    ensures r.halt == Rerun ==> Dispatch(t) == AwaitUpload || Dispatch(t) == CheckCat
    ensures r.logs != [] ==> Dispatch(t) == DrawCat || Dispatch(t) == PaintCat
    ensures Dispatch(t) == StartOverOnly ==> r == RunResult(t, Stop, [StartOver], [])
    ensures Dispatch(t) == VerdictFault ==> r == RunResult(t, Raised(NoVerdict), [], [])
  {
    match Dispatch(t)
    case AwaitUpload => UploadStep(t, env.picked, env.decoded, env.rescale)
    case CheckCat => CatCheckStep(t, env.verdict)
    case DrawCat => DrawStep(t, env.notes, env.reply, env.store, env.context)
    case PaintCat => PaintStep(t, env.notes, env.reply, env.store, env.context)
    case StartOverOnly => RunResult(t, Stop, [StartOver], [])
    case VerdictFault => RunResult(t, Raised(NoVerdict), [], [])
  }

  /** One execution of `app()`: a run the locale gate stops offers nothing and logs
      nothing; otherwise it is the stage the session calls for. */
  function Run(s: Session, env: Env): (r: RunResult)
    ensures StageOf(s, env).None? ==> r.halt == Stop && r.buttons == [] && r.logs == []
    ensures r.halt == Rerun ==> StageOf(s, env) == Some(AwaitUpload) || StageOf(s, env) == Some(CheckCat)
    ensures r.logs != [] ==> StageOf(s, env) == Some(DrawCat) || StageOf(s, env) == Some(PaintCat)
  {
    var gate := LocaleGate(s, env.context);
    if !gate.proceed then RunResult(gate.session, Stop, [], [])
    else RunStage(gate.session, env)
  }

  /** The stage a run goes into, if the locale gate lets it through: since the gate
      writes only 'locale', it is the stage the session called for before the gate. */
  function StageOf(s: Session, env: Env): (r: Option<Stage>)
    ensures r.Some? <==> LocaleGate(s, env.context).proceed
    ensures r.Some? ==> r.value == Dispatch(s)
  {
    var gate := LocaleGate(s, env.context);
    if gate.proceed then
      var t := gate.session;
      assert Agree(t, s, ImageKey) && Agree(t, s, IsCatKey) && Agree(t, s, DrawingKey);
      DispatchReadsThreeKeys(t, s);
      Some(Dispatch(t))
    else None
  }

  // ---- what each stage writes ----------------------------------------------------

  /** The keys a stage may write. */
  function Writes(stage: Stage): set<Key>
  {
    match stage
    case AwaitUpload => {UploadKey, FileKey, ImageKey}
    case CheckCat => {IsCatKey}
    case DrawCat => {DrawingKey, ArtworkUrlKey}
    case PaintCat => {PaintingKey, ArtworkUrlKey}
    case StartOverOnly => {}
    case VerdictFault => {}
  }

  lemma UploadWrites(t: Session, picked: Option<UploadedFile>, decoded: Decoded,
                     rescale: (nat, nat, nat) -> (nat, nat))
    ensures forall k :: k !in Writes(AwaitUpload) ==> Agree(UploadStep(t, picked, decoded, rescale).session, t, k)
  {
    var r := UploadStep(t, picked, decoded, rescale).session;
    forall k | k !in Writes(AwaitUpload) ensures Agree(r, t, k) {
      if picked.Some? {
        var u := t.(upload := picked, file := picked);
        assert Agree(r, u, k);
      }
      match k
      case UploadKey => case FileKey => case ImageKey => case IsCatKey => case DrawingKey =>
      case PaintingKey => case ArtworkUrlKey => case LocaleKey => case ClientKey =>
    }
  }

  lemma CatCheckWrites(t: Session, reply: CheckReply)
    ensures forall k :: k !in Writes(CheckCat) ==> Agree(CatCheckStep(t, reply).session, t, k)
  {
    var r := CatCheckStep(t, reply).session;
    forall k | k !in Writes(CheckCat) ensures Agree(r, t, k) {
      match k
      case UploadKey => case FileKey => case ImageKey => case IsCatKey => case DrawingKey =>
      case PaintingKey => case ArtworkUrlKey => case LocaleKey => case ClientKey =>
    }
  }

  lemma DrawWrites(t: Session, env: Env)
    ensures forall k :: k !in Writes(DrawCat) ==> Agree(DrawStep(t, env.notes, env.reply, env.store, env.context).session, t, k)
  {
    if env.reply.Parts? {
      ScanFrame(t, DrawingSlot, env.reply.parts, env.store, env.context);
    }
  }

  lemma PaintWrites(t: Session, env: Env)
    ensures forall k :: k !in Writes(PaintCat) ==> Agree(PaintStep(t, env.notes, env.reply, env.store, env.context).session, t, k)
  {
    if env.reply.Parts? {
      ScanFrame(t, PaintingSlot, env.reply.parts, env.store, env.context);
    }
  }

  /** A run writes nothing outside the keys of the stage it runs, apart from the locale
      the gate stores; a run the gate stops writes nothing else at all. */
  lemma RunWrites(s: Session, env: Env)
    ensures StageOf(s, env).None? ==> forall k :: k != LocaleKey ==> Agree(Run(s, env).session, s, k)
    ensures StageOf(s, env).Some? ==>
              forall k :: k != LocaleKey && k !in Writes(StageOf(s, env).value) ==> Agree(Run(s, env).session, s, k)
  {
    var gate := LocaleGate(s, env.context);
    var t := gate.session;
    if gate.proceed {
      var stage := Dispatch(t);
      var r := RunStage(t, env).session;
      assert StageOf(s, env) == Some(stage) && Run(s, env).session == r;
      AgreeTrans(r, t, s);
      match stage {
        case AwaitUpload => UploadWrites(t, env.picked, env.decoded, env.rescale);
        case CheckCat => CatCheckWrites(t, env.verdict);
        case DrawCat => DrawWrites(t, env);
        case PaintCat => PaintWrites(t, env);
        case StartOverOnly =>
        case VerdictFault =>
      }
    }
  }
}
