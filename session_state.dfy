/** `st.session_state` as a mutable object, and the functions of the app that change it
    in place, each proved to do what the matching step function of `Workflows` says. */
module SessionStore {
  import opened Sessions
  import opened Locale
  import opened Dispatcher
  import opened PartScan
  import opened Workflows

  class SessionState {
    var upload: Option<UploadedFile>
    var file: Option<UploadedFile>
    var image: Option<Image>
    var isCat: Option<Verdict>
    var drawing: Option<Image>
    var painting: Option<Image>
    var artworkUrl: Option<string>
    var locale: Option<string>
    var client: Option<Client>

    /** The session's current contents as a value. */
    function Snapshot(): Session
      reads this
    {
      Session(upload, file, image, isCat, drawing, painting, artworkUrl, locale, client)
    }

    constructor ()
      ensures Snapshot() == Fresh
    {
      upload, file, image, isCat := None, None, None, None;
      drawing, painting, artworkUrl, locale, client := None, None, None, None, None;
    }

    /** `clear_drawing`, the "Sketch Again" callback. */
    method ClearDrawing()
      modifies this
      ensures Snapshot() == Pop(old(Snapshot()), {DrawingKey})
    {
      drawing := None;
    }

    /** `clear_painting`, the "Paint Again" callback. */
    method ClearPainting()
      modifies this
      ensures Snapshot() == Pop(old(Snapshot()), {PaintingKey})
    {
      painting := None;
    }

    /** `clear_session`, the "Start Over" callback: four pops, and no more. */
    method ClearSession()
      modifies this
      ensures Snapshot() == Pop(old(Snapshot()), ResetKeys)
    {
      upload := None;
      image := None;
      isCat := None;
      drawing := None;
    }

    /** `open_image_workflow` */
    method OpenImageWorkflow(decoded: Decoded, rescale: (nat, nat, nat) -> (nat, nat))
      modifies this
      ensures Snapshot() == OpenImage(old(Snapshot()), decoded, rescale)
    {
      if file.Some? && (file.value.mimeType == JpegType || file.value.mimeType == PngType) {
        match decoded {
          case Opened(decodedImage) =>
            var photo := decodedImage;
            if LongestEdge(photo) > MaxEdge {
              var (w, h) := rescale(photo.width, photo.height, MaxEdge);
              photo := Image(w, h, photo.picture);
            }
            image := Some(photo);
          case FileNotFound =>
          case UnidentifiedImage =>
          case ReadError =>
          case InvalidMode =>
        }
      }
    }

    /** `upload_workflow` */
    method UploadWorkflow(picked: Option<UploadedFile>, decoded: Decoded,
                          rescale: (nat, nat, nat) -> (nat, nat)) returns (halt: Halt)
      modifies this
      ensures RunResult(Snapshot(), halt, [], []) == UploadStep(old(Snapshot()), picked, decoded, rescale)
    {
      upload := picked;
      if picked.Some? {
        file := picked;
        OpenImageWorkflow(decoded, rescale);
        halt := Rerun;
      } else {
        halt := Stop;
      }
    }

    /** `cat_check_workflow` */
    method CatCheckWorkflow(reply: CheckReply) returns (halt: Halt, buttons: seq<Button>)
      modifies this
      ensures RunResult(Snapshot(), halt, buttons, []) == CatCheckStep(old(Snapshot()), reply)
    {
      match reply {
        case CheckApiError(_) =>
          return Stop, [TryAgain];
        case Parsed(v) =>
          isCat := Some(v);
      }
      match isCat.value {
        case Unparsed =>
          halt, buttons := Raised(NoVerdict), [];
        case Judged(flag, _) =>
          if flag {
            halt, buttons := Rerun, [];
          } else {
            halt, buttons := Stop, [StartOver];
          }
      }
    }

    /** The loop over the response parts shared by the sketch and painting stages. */
    method ScanResponse(slot: Slot, parts: seq<Part>, store: nat -> Option<string>,
                        context: Option<string>) returns (logs: seq<LogRecord>)
      modifies this
      ensures Scanned(Snapshot(), logs) == Scan(old(Snapshot()), slot, parts, store, context)
    {
      logs := [];
      var i := 0;
      while i < |parts|
        invariant 0 <= i <= |parts|
        invariant Scanned(Snapshot(), logs) == Scan(old(Snapshot()), slot, parts[..i], store, context)
      {
        assert parts[..i + 1][..i] == parts[..i];
        var part := parts[i];
        if part.inlineData.Some? {
          match slot {
            case DrawingSlot => drawing := part.inlineData;
            case PaintingSlot => painting := part.inlineData;
          }
          var uploaded := store(i);
          if uploaded.Some? {
            artworkUrl := uploaded;
          }
          logs := logs + [LogRecord(Tag(slot), context, artworkUrl)];
        }
        i := i + 1;
      }
      assert parts[..|parts|] == parts;
    }

    /** `draw_cat_workflow` */
    method DrawCatWorkflow(notes: TextReply, reply: GenReply, store: nat -> Option<string>,
                           context: Option<string>) returns (halt: Halt, buttons: seq<Button>, logs: seq<LogRecord>)
      modifies this
      ensures RunResult(Snapshot(), halt, buttons, logs) == DrawStep(old(Snapshot()), notes, reply, store, context)
    {
      match Instruct(notes, SketchNotesEmpty) {
        case InstructApiError(_) =>
          return Stop, [TryAgain], [];
        case InstructEmpty(m) =>
          return Raised(Uncaught(m)), [], [];
        case Instructions(_) =>
      }
      match reply {
        case GenApiError(_) =>
          return Stop, [TryAgain], [];
        case Parts(ps) =>
          logs := ScanResponse(DrawingSlot, ps, store, context);
      }
      halt, buttons := Stop, [SketchAgain, StartPainting, StartOver];
    }

    /** `paint_cat_workflow` */
    method PaintCatWorkflow(notes: TextReply, reply: GenReply, store: nat -> Option<string>,
                            context: Option<string>) returns (halt: Halt, buttons: seq<Button>, logs: seq<LogRecord>)
      modifies this
      ensures RunResult(Snapshot(), halt, buttons, logs) == PaintStep(old(Snapshot()), notes, reply, store, context)
    {
      match Instruct(notes, PaintNotesEmpty) {
        case InstructApiError(_) =>
          return Stop, [TryAgain], [];
        case InstructEmpty(_) =>
          return Stop, [TryAgain], [];
        case Instructions(_) =>
      }
      match reply {
        case GenApiError(_) =>
          return Stop, [TryAgain], [];
        case Parts(ps) =>
          logs := ScanResponse(PaintingSlot, ps, store, context);
      }
      halt, buttons := Stop, [PaintAgain, StartOver];
    }

    /** The locale check at the top of `app()`; `proceed` is false where it calls `st.stop()`. */
    method CheckLocale(context: Option<string>) returns (proceed: bool)
      modifies this
      ensures GateResult(Snapshot(), proceed) == LocaleGate(old(Snapshot()), context)
    {
      if locale.None? || locale.value == Missing {
        if context.None? {
          return false;
        }
        var region := RegionOf(context.value);
        locale := Some(region);
        if region != Supported {
          return false;
        }
      }
      proceed := true;
    }

    /** `app()`: the locale check, then the stage the session's keys call for. */
    method App(env: Env) returns (halt: Halt, buttons: seq<Button>, logs: seq<LogRecord>)
      modifies this
      ensures RunResult(Snapshot(), halt, buttons, logs) == Run(old(Snapshot()), env)
    {
      var proceed := CheckLocale(env.context);
      if !proceed {
        return Stop, [], [];
      }
      buttons, logs := [], [];
      if image.None? {
        halt := UploadWorkflow(env.picked, env.decoded, env.rescale);
      } else if isCat.None? {
        halt, buttons := CatCheckWorkflow(env.verdict);
      } else if drawing.None? && isCat.value.Unparsed? {
        halt := Raised(NoVerdict);
      } else if drawing.None? && isCat.value.isCat {
        halt, buttons, logs := DrawCatWorkflow(env.notes, env.reply, env.store, env.context);
      } else if drawing.Some? {
        halt, buttons, logs := PaintCatWorkflow(env.notes, env.reply, env.store, env.context);
      } else {
        halt, buttons := Stop, [StartOver];
      }
    }
  }
}
