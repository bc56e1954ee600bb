/** What one run, and a sequence of runs and button presses, can do to a session. */
module Journeys {
  import opened Sessions
  import opened Locale
  import opened Dispatcher
  import opened PartScan
  import opened Workflows

  // ---- one run -------------------------------------------------------------------

  /** A run that ends offering "Try Again" was a cat check, sketch or painting whose
      external call failed: it wrote nothing but possibly the locale, and logged nothing. */
  lemma TryAgainMeansNothingWritten(s: Session, env: Env)
    requires TryAgain in Run(s, env).buttons
    ensures Run(s, env).logs == []
    ensures forall k :: k != LocaleKey ==> Agree(Run(s, env).session, s, k)
    ensures StageOf(s, env) == Some(CheckCat) || StageOf(s, env) == Some(DrawCat) || StageOf(s, env) == Some(PaintCat)
    ensures StageOf(s, env) == Some(CheckCat) ==> env.verdict.CheckApiError?
    ensures StageOf(s, env) == Some(DrawCat) ==> env.notes.TextApiError? || env.reply.GenApiError?
    ensures StageOf(s, env) == Some(PaintCat) ==> !Instruct(env.notes, PaintNotesEmpty).Instructions? || env.reply.GenApiError?
  {
    var gate := LocaleGate(s, env.context);
    var t := gate.session;
    assert gate.proceed;
    assert Run(s, env) == RunStage(t, env);
    assert Run(s, env).session == t;
  }

  /** 'is_cat' is written by a cat check whose call returned, and by nothing else. */
  lemma VerdictWrittenOnlyByCheck(s: Session, env: Env)
    ensures Run(s, env).session.isCat != s.isCat <==> StageOf(s, env) == Some(CheckCat) && env.verdict.Parsed?
    ensures StageOf(s, env) == Some(CheckCat) && env.verdict.Parsed? ==> Run(s, env).session.isCat == Some(env.verdict.verdict)
  {
    if StageOf(s, env) == Some(CheckCat) {
      var t := LocaleGate(s, env.context).session;
      assert Agree(t, s, IsCatKey) && !Has(t, IsCatKey);
      assert Run(s, env) == CatCheckStep(t, env.verdict);
    } else {
      RunWrites(s, env);
      if StageOf(s, env).Some? {
        assert IsCatKey !in Writes(StageOf(s, env).value);
      }
      assert Agree(Run(s, env).session, s, IsCatKey);
    }
  }

  /** The sketch succeeds: the stage is the sketch, the instructions came back non-empty
      and the generated response carries an image. */
  predicate SketchSucceeds(s: Session, env: Env)
  {
    StageOf(s, env) == Some(DrawCat) && Instruct(env.notes, SketchNotesEmpty).Instructions? &&
    env.reply.Parts? && !NoImage(env.reply.parts)
  }

  predicate PaintingSucceeds(s: Session, env: Env)
  {
    StageOf(s, env) == Some(PaintCat) && Instruct(env.notes, PaintNotesEmpty).Instructions? &&
    env.reply.Parts? && !NoImage(env.reply.parts)
  }

  /** Within the sketch stage, on a session without a drawing: the drawing is written
      iff the instructions came back and the response carries an image, and then holds
      the last image part's image. */
  lemma SketchStageDrawing(t: Session, env: Env)
    requires t.drawing.None?
    ensures DrawStep(t, env.notes, env.reply, env.store, env.context).session.drawing.Some? <==>
              Instruct(env.notes, SketchNotesEmpty).Instructions? && env.reply.Parts? && !NoImage(env.reply.parts)
    ensures Instruct(env.notes, SketchNotesEmpty).Instructions? && env.reply.Parts? ==>
              forall i :: IsLastImage(env.reply.parts, i) ==>
                DrawStep(t, env.notes, env.reply, env.store, env.context).session.drawing == env.reply.parts[i].inlineData
  {
    if env.notes.Text? && env.notes.text != "" && env.reply.Parts? {
      var ps := env.reply.parts;
      ScanKeepsLastImage(t, DrawingSlot, ps, env.store, env.context);
      if !NoImage(ps) {
        LastImageExists(ps);
      }
    }
  }

  /** 'drawing' is written by a successful sketch and by nothing else, and then holds the
      image of the last image part; the storage outcomes play no part in it. */
  lemma DrawingWrittenOnlyBySketch(s: Session, env: Env)
    ensures Run(s, env).session.drawing != s.drawing <==> SketchSucceeds(s, env)
    ensures SketchSucceeds(s, env) ==>
              forall i :: IsLastImage(env.reply.parts, i) ==> Run(s, env).session.drawing == env.reply.parts[i].inlineData
  {
    if StageOf(s, env) == Some(DrawCat) {
      var t := LocaleGate(s, env.context).session;
      assert Agree(t, s, DrawingKey) && !Has(t, DrawingKey);
      assert Run(s, env) == DrawStep(t, env.notes, env.reply, env.store, env.context);
      SketchStageDrawing(t, env);
    } else {
      RunWrites(s, env);
      if StageOf(s, env).Some? {
        assert DrawingKey !in Writes(StageOf(s, env).value);
      }
      assert Agree(Run(s, env).session, s, DrawingKey);
    }
  }

  /** 'painting' changes only through a successful painting stage, which leaves it
      holding the image of the last image part. */
  lemma PaintingWrittenOnlyByPainting(s: Session, env: Env)
    ensures Run(s, env).session.painting != s.painting ==> PaintingSucceeds(s, env)
    ensures PaintingSucceeds(s, env) ==>
              forall i :: IsLastImage(env.reply.parts, i) ==> Run(s, env).session.painting == env.reply.parts[i].inlineData
  {
    if StageOf(s, env) == Some(PaintCat) {
      var t := LocaleGate(s, env.context).session;
      assert Agree(t, s, PaintingKey);
      assert Run(s, env) == PaintStep(t, env.notes, env.reply, env.store, env.context);
      if env.notes.Text? && env.notes.text != "" && env.reply.Parts? {
        ScanKeepsLastImage(t, PaintingSlot, env.reply.parts, env.store, env.context);
      }
    } else {
      RunWrites(s, env);
      if StageOf(s, env).Some? {
        assert PaintingKey !in Writes(StageOf(s, env).value);
      }
      assert Agree(Run(s, env).session, s, PaintingKey);
    }
  }

  /** An empty instruction text escapes the sketch stage as an uncaught exception with
      no button to press, while the painting stage catches it and offers "Try Again". */
  lemma EmptyInstructionsHandledOnlyByPainting(s: Session, env: Env)
    requires env.notes == Text("")
    ensures StageOf(s, env) == Some(DrawCat) ==>
              Run(s, env).halt == Raised(Uncaught(SketchNotesEmpty)) && Run(s, env).buttons == []
    ensures StageOf(s, env) == Some(PaintCat) ==>
              Run(s, env).halt == Stop && Run(s, env).buttons == [TryAgain]
    ensures Run(s, env).session.drawing == s.drawing && Run(s, env).session.painting == s.painting
  {
    DrawingWrittenOnlyBySketch(s, env);
    PaintingWrittenOnlyByPainting(s, env);
  }

  /** In the upload stage 'image' is written exactly when a file of an accepted type was
      picked and opened, and then holds the normalised photo; the picked file itself is
      stored under 'file' before its type is looked at, so a refused file is kept. */
  lemma UploadGate(s: Session, env: Env)
    requires StageOf(s, env) == Some(AwaitUpload)
    ensures Run(s, env).session.image.Some? <==> AcceptedType(env.picked) && env.decoded.Opened?
    ensures Run(s, env).session.image.Some? ==> Run(s, env).session.image == Some(Normalize(env.decoded.image, env.rescale))
    ensures env.picked.Some? ==> Run(s, env).session.file == env.picked && Run(s, env).halt == Rerun
    ensures env.picked.None? ==> Run(s, env).halt == Stop
    ensures forall k :: k != UploadKey && k != FileKey && k != ImageKey && k != LocaleKey ==> Agree(Run(s, env).session, s, k)
  {
    var t := LocaleGate(s, env.context).session;
    assert Agree(t, s, ImageKey) && !Has(t, ImageKey);
    assert Run(s, env) == UploadStep(t, env.picked, env.decoded, env.rescale);
    RunWrites(s, env);
  }

  /** A file of an accepted type that does not open reruns the script without an image,
      so the next run with the same widget value goes through the same upload again. */
  lemma UndecodableUploadReruns(s: Session, env: Env)
    requires StageOf(s, env) == Some(AwaitUpload)
    requires AcceptedType(env.picked) && !env.decoded.Opened?
    ensures Run(s, env).halt == Rerun && Run(s, env).session.image.None?
    ensures StageOf(Run(s, env).session, env) == Some(AwaitUpload)
  {
    UploadGate(s, env);
    var r := Run(s, env).session;
    assert !NeedsLocale(r) by {
      assert LocaleGate(s, env.context).proceed;
      assert Agree(r, LocaleGate(s, env.context).session, LocaleKey);
    }
  }

  // ---- runs and button presses ---------------------------------------------------

  /** What the user does between runs: interact with the page (a plain rerun), or press
      a button, whose `on_click` callback runs before the rerun. */
  datatype Action = Interact(env: Env) | Press(button: Button, env: Env)

  /** The keys a button's `on_click` callback pops: "Start Over" is wired to
      `clear_session`, "Sketch Again" to `clear_drawing`, "Paint Again" to
      `clear_painting`; "Try Again" and "Start Painting" have no callback. */
  function Cleared(b: Button): set<Key>
  {
    match b
    case StartOver => ResetKeys
    case SketchAgain => {DrawingKey}
    case PaintAgain => {PaintingKey}
    case TryAgain => {}
    case StartPainting => {}
  }

  /** Pressing a button runs its callback: the callback's keys are gone, every other
      key keeps what it held, and a button without a callback changes nothing. */
  function OnClick(b: Button, s: Session): (r: Session)
    ensures forall k :: Has(r, k) <==> Has(s, k) && k !in Cleared(b)
    ensures forall k :: k !in Cleared(b) ==> Agree(r, s, k)
    ensures Cleared(b) == {} ==> r == s
  {
    PopKeys(s, Cleared(b));
    if Cleared(b) == {} then s else Pop(s, Cleared(b))
  }

  function Apply(s: Session, a: Action): RunResult
  {
    match a
    case Interact(env) => Run(s, env)
    case Press(b, env) => Run(OnClick(b, s), env)
  }

  function Replay(s: Session, acts: seq<Action>): Session
    decreases |acts|
  {
    if acts == [] then s else Replay(Apply(s, acts[0]).session, acts[1..])
  }

  /** "Sketch Again" and "Paint Again" remove their own key only and may be repeated;
      "Start Over" leads back to the upload stage yet keeps the painting, the URL,
      the file, the locale and the client. */
  lemma CallbacksAreFieldLocal(s: Session)
    ensures forall k :: k != DrawingKey ==> Agree(OnClick(SketchAgain, s), s, k)
    ensures !Has(OnClick(SketchAgain, s), DrawingKey)
    ensures OnClick(SketchAgain, OnClick(SketchAgain, s)) == OnClick(SketchAgain, s)
    ensures forall k :: k != PaintingKey ==> Agree(OnClick(PaintAgain, s), s, k)
    ensures !Has(OnClick(PaintAgain, s), PaintingKey)
    ensures OnClick(PaintAgain, OnClick(PaintAgain, s)) == OnClick(PaintAgain, s)
    ensures Dispatch(OnClick(StartOver, s)) == AwaitUpload
    ensures forall k :: k !in ResetKeys ==> Agree(OnClick(StartOver, s), s, k)
    ensures OnClick(StartOver, s).painting == s.painting
  {
    PopIdempotent(s, {DrawingKey});
    PopIdempotent(s, {PaintingKey});
    assert !Has(OnClick(StartOver, s), ImageKey);
    assert Agree(OnClick(StartOver, s), s, PaintingKey);
  }

  /** The cat check said no and there is no drawing. */
  predicate Rejected(s: Session)
  {
    JudgedAs(s, false) && s.drawing.None?
  }

  /** From a rejected session, neither the sketch nor the painting stage can be chosen. */
  lemma RejectedStageIsNeverArt(s: Session)
    requires Rejected(s)
    ensures Dispatch(s) != DrawCat && Dispatch(s) != PaintCat
  {
  }

  /** One run or press other than "Start Over" keeps the rejected verdict, writes no
      drawing and logs nothing. */
  lemma RejectedStep(s: Session, a: Action)
    requires Rejected(s)
    requires !(a.Press? && a.button == StartOver)
    ensures Rejected(Apply(s, a).session)
    ensures Apply(s, a).session.isCat == s.isCat
    ensures Apply(s, a).logs == []
  {
    var before := if a.Press? then OnClick(a.button, s) else s;
    assert Agree(before, s, IsCatKey) && !Has(before, DrawingKey);
    assert Apply(s, a) == Run(before, a.env);
    RunWrites(before, a.env);
    var stage := StageOf(before, a.env);
    if stage.Some? {
      RejectedStageIsNeverArt(before);
      assert stage.value == AwaitUpload || stage.value == StartOverOnly;
      assert IsCatKey !in Writes(stage.value) && DrawingKey !in Writes(stage.value);
    }
    var r := Run(before, a.env).session;
    assert Agree(r, before, IsCatKey) && Agree(r, before, DrawingKey);
  }

  /** Rejection is sticky: once the cat check has said no, no sequence of runs and
      presses that avoids "Start Over" ever produces a drawing or reaches painting. */
  lemma {:induction false} RejectionIsSticky(s: Session, acts: seq<Action>)
    requires Rejected(s)
    requires forall i :: 0 <= i < |acts| ==> !(acts[i].Press? && acts[i].button == StartOver)
    ensures Rejected(Replay(s, acts))
    ensures Replay(s, acts).isCat == s.isCat
    ensures Dispatch(Replay(s, acts)) != DrawCat && Dispatch(Replay(s, acts)) != PaintCat
    decreases |acts|
  {
    if acts == [] {
      RejectedStageIsNeverArt(s);
    } else {
      var rest := acts[1..];
      assert forall i :: 0 <= i < |rest| ==> rest[i] == acts[i + 1];
      RejectedStep(s, acts[0]);
      var next := Apply(s, acts[0]).session;
      RejectionIsSticky(next, rest);
      ReplayFirst(s, acts);
    }
  }

  lemma ReplayFirst(s: Session, acts: seq<Action>)
    requires acts != []
    ensures Replay(s, acts) == Replay(Apply(s, acts[0]).session, acts[1..])
  {
  }

  /** 'is_cat' holds None (the model's answer did not parse) and there is no drawing. */
  predicate Stuck(s: Session)
  {
    s.image.Some? && s.isCat == Some(Unparsed) && s.drawing.None?
  }

  /** A verdict that did not parse wedges the session: every later run that gets past
      the locale gate raises in the dispatcher, and a run the gate stops just stops;
      either way nothing but the locale is written, nothing is logged and no button is
      offered, so no callback (not even "Start Over") can ever be pressed again. Once
      a locale is stored the gate always lets the run through, so it raises. */
  lemma UnparsedVerdictIsStuck(s: Session, env: Env)
    requires Stuck(s)
    ensures Stuck(Run(s, env).session)
    ensures forall k :: k != LocaleKey ==> Agree(Run(s, env).session, s, k)
    ensures Run(s, env).buttons == [] && Run(s, env).logs == []
    ensures StageOf(s, env).Some? ==> StageOf(s, env) == Some(VerdictFault) && Run(s, env).halt == Raised(NoVerdict)
    ensures StageOf(s, env).None? ==> Run(s, env).halt == Stop
    ensures !NeedsLocale(s) ==> Run(s, env).halt == Raised(NoVerdict)
  {
    var t := LocaleGate(s, env.context).session;
    assert Agree(t, s, ImageKey) && Agree(t, s, IsCatKey) && Agree(t, s, DrawingKey);
  }

  /** A sketch whose call fails leaves 'drawing' unset and offers
      "Try Again"; pressing it on a run where the calls succeed stores the drawing. */
  lemma SketchRetryAfterFailure(s: Session, failing: Env, retry: Env)
    requires StageOf(s, failing) == Some(DrawCat)
    requires failing.notes.TextApiError? || (failing.notes.Text? && failing.notes.text != "" && failing.reply.GenApiError?)
    requires Instruct(retry.notes, SketchNotesEmpty).Instructions? && retry.reply.Parts? && !NoImage(retry.reply.parts)
    ensures Apply(s, Interact(failing)).buttons == [TryAgain]
    ensures Apply(s, Interact(failing)).session.drawing.None?
    ensures Apply(Apply(s, Interact(failing)).session, Press(TryAgain, retry)).session.drawing.Some?
  {
    var t := LocaleGate(s, failing.context).session;
    assert Run(s, failing) == DrawStep(t, failing.notes, failing.reply, failing.store, failing.context);
    var first := Run(s, failing).session;
    assert first == t;
    assert Agree(t, s, ImageKey) && Agree(t, s, IsCatKey) && Agree(t, s, DrawingKey) && !Has(t, DrawingKey);
    assert !NeedsLocale(first);
    DispatchReadsThreeKeys(first, s);
    assert OnClick(TryAgain, first) == first;
    assert SketchSucceeds(first, retry);
    DrawingWrittenOnlyBySketch(first, retry);
  }

  /** A stage that scans a response with an image part logs at least one record, every
      record tagged with the stage, and leaves the stage's key holding an image. */
  lemma ScanWithImage(t: Session, slot: Slot, parts: seq<Part>,
                      store: nat -> Option<string>, locale: Option<string>)
    requires !NoImage(parts)
    ensures var r := Scan(t, slot, parts, store, locale);
      && r.logs != [] && r.logs[0].status == Tag(slot)
      && SlotValue(r.session, slot).Some?
      && forall i :: IsLastImage(parts, i) ==> SlotValue(r.session, slot) == parts[i].inlineData
  {
    ScanLogs(t, slot, parts, store, locale);
    ImageCountZero(parts);
    ScanKeepsLastImage(t, slot, parts, store, locale);
    LastImageExists(parts);
  }

  /** The first run from a fresh session with an "en-US" browser and a photo that opens:
      the locale and the photo are stored and the script reruns. */
  lemma FreshUpload(e1: Env)
    requires e1.context == Some("en-US")
    requires AcceptedType(e1.picked) && e1.decoded.Opened?
    ensures Run(Fresh, e1).halt == Rerun
    ensures Run(Fresh, e1).session.image == Some(Normalize(e1.decoded.image, e1.rescale))
    ensures Run(Fresh, e1).session.locale == Some("us")
    ensures Run(Fresh, e1).session.isCat.None? && Run(Fresh, e1).session.drawing.None?
  {
    EnUsPasses(Fresh);
    var t1 := Fresh.(locale := Some("us"));
    assert Run(Fresh, e1) == UploadStep(t1, e1.picked, e1.decoded, e1.rescale);
    UploadWrites(t1, e1.picked, e1.decoded, e1.rescale);
    var r1 := Run(Fresh, e1).session;
    assert Agree(r1, t1, LocaleKey) && Agree(r1, t1, IsCatKey) && Agree(r1, t1, DrawingKey);
  }

  /** With a locale stored and a photo but no verdict, a returned cat verdict is stored
      and the script reruns; nothing else changes. */
  lemma CheckSaysCat(s: Session, e2: Env)
    requires !NeedsLocale(s) && s.image.Some? && s.isCat.None? && s.drawing.None?
    requires e2.verdict.Parsed? && e2.verdict.verdict.Judged? && e2.verdict.verdict.isCat
    ensures Run(s, e2).halt == Rerun
    ensures Run(s, e2).session == s.(isCat := Some(e2.verdict.verdict))
  {
    assert Run(s, e2) == CatCheckStep(s, e2.verdict);
  }

  /** With a locale stored, a photo, a cat verdict and no drawing, a sketch that gets
      instructions and an image part stores the last image part, logs "sketch" records
      and offers its three buttons; the locale, photo and verdict are kept. */
  lemma SketchSucceedsFrom(s: Session, e3: Env)
    requires !NeedsLocale(s) && s.image.Some? && JudgedAs(s, true) && s.drawing.None?
    requires Instruct(e3.notes, SketchNotesEmpty).Instructions? && e3.reply.Parts? && !NoImage(e3.reply.parts)
    ensures var r := Run(s, e3);
      && r.buttons == [SketchAgain, StartPainting, StartOver]
      && r.logs != [] && r.logs[0].status == "sketch"
      && (forall i :: IsLastImage(e3.reply.parts, i) ==> r.session.drawing == e3.reply.parts[i].inlineData)
      && r.session.drawing.Some? && r.session.locale == s.locale && r.session.image == s.image && r.session.isCat == s.isCat
  {
    assert Run(s, e3) == DrawStep(s, e3.notes, e3.reply, e3.store, e3.context);
    DrawWrites(s, e3);
    ScanWithImage(s, DrawingSlot, e3.reply.parts, e3.store, e3.context);
    var r := Run(s, e3).session;
    assert Agree(r, s, LocaleKey) && Agree(r, s, ImageKey) && Agree(r, s, IsCatKey);
  }

  /** With a locale stored, a photo, a verdict and a drawing, a painting that gets
      instructions and an image part stores the last image part, logs "painting"
      records and offers its two buttons. */
  lemma PaintingSucceedsFrom(s: Session, e4: Env)
    requires ReadyToPaint(s)
    requires Instruct(e4.notes, PaintNotesEmpty).Instructions? && e4.reply.Parts? && !NoImage(e4.reply.parts)
    ensures var r := Run(s, e4);
      && r.buttons == [PaintAgain, StartOver]
      && r.logs != [] && r.logs[0].status == "painting"
      && (forall i :: IsLastImage(e4.reply.parts, i) ==> r.session.painting == e4.reply.parts[i].inlineData)
  {
    assert Run(s, e4) == PaintStep(s, e4.notes, e4.reply, e4.store, e4.context);
    ScanWithImage(s, PaintingSlot, e4.reply.parts, e4.store, e4.context);
  }

  /** A session the painting stage will run on: past the gate, with a photo, a verdict
      and a drawing. */
  predicate ReadyToPaint(s: Session)
  {
    !NeedsLocale(s) && s.image.Some? && s.isCat.Some? && s.drawing.Some?
  }

  /** The first three runs of the journey: upload, cat check, sketch. */
  lemma HappySketch(e1: Env, e2: Env, e3: Env)
    requires e1.context == Some("en-US")
    requires AcceptedType(e1.picked) && e1.decoded.Opened?
    requires e2.verdict.Parsed? && e2.verdict.verdict.Judged? && e2.verdict.verdict.isCat
    requires Instruct(e3.notes, SketchNotesEmpty).Instructions? && e3.reply.Parts? && !NoImage(e3.reply.parts)
    ensures var r1 := Run(Fresh, e1);
      && r1.halt == Rerun && r1.session.image == Some(Normalize(e1.decoded.image, e1.rescale))
      && var r2 := Run(r1.session, e2);
      && r2.halt == Rerun && r2.session.isCat == Some(e2.verdict.verdict)
      && var r3 := Run(r2.session, e3);
      && r3.buttons == [SketchAgain, StartPainting, StartOver]
      && r3.logs != [] && r3.logs[0].status == "sketch"
      && (forall i :: IsLastImage(e3.reply.parts, i) ==> r3.session.drawing == e3.reply.parts[i].inlineData)
      && ReadyToPaint(r3.session)
  {
    FreshUpload(e1);
    var s1 := Run(Fresh, e1).session;
    CheckSaysCat(s1, e2);
    var s2 := Run(s1, e2).session;
    SketchSucceedsFrom(s2, e3);
  }

  /** The whole journey from a fresh session: a browser reporting "en-US" uploads a photo
      of an accepted type that opens, and the script reruns; the check says cat, and the
      script reruns; the sketch stores the last image part of its response and logs
      "sketch" records; "Start Painting" (no callback) leads into the painting stage,
      which stores the last image part of its response and logs "painting" records. */
  lemma HappyPath(e1: Env, e2: Env, e3: Env, e4: Env)
    requires e1.context == Some("en-US")
    requires AcceptedType(e1.picked) && e1.decoded.Opened?
    requires e2.verdict.Parsed? && e2.verdict.verdict.Judged? && e2.verdict.verdict.isCat
    requires Instruct(e3.notes, SketchNotesEmpty).Instructions? && e3.reply.Parts? && !NoImage(e3.reply.parts)
    requires Instruct(e4.notes, PaintNotesEmpty).Instructions? && e4.reply.Parts? && !NoImage(e4.reply.parts)
    ensures var r1 := Run(Fresh, e1);
      && r1.halt == Rerun && r1.session.image == Some(Normalize(e1.decoded.image, e1.rescale))
      && var r2 := Run(r1.session, e2);
      && r2.halt == Rerun && r2.session.isCat == Some(e2.verdict.verdict)
      && var r3 := Run(r2.session, e3);
      && r3.buttons == [SketchAgain, StartPainting, StartOver]
      && r3.logs != [] && r3.logs[0].status == "sketch"
      && (forall i :: IsLastImage(e3.reply.parts, i) ==> r3.session.drawing == e3.reply.parts[i].inlineData)
      && var r4 := Apply(r3.session, Press(StartPainting, e4));
      && r4.buttons == [PaintAgain, StartOver]
      && r4.logs != [] && r4.logs[0].status == "painting"
      && (forall i :: IsLastImage(e4.reply.parts, i) ==> r4.session.painting == e4.reply.parts[i].inlineData)
  {
    HappySketch(e1, e2, e3);
    var s3 := Run(Run(Run(Fresh, e1).session, e2).session, e3).session;
    assert OnClick(StartPainting, s3) == s3 by {
      assert Cleared(StartPainting) == {};
    }
    PaintingSucceedsFrom(s3, e4);
  }
}
