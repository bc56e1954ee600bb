/** The scan over the parts of a generated response that the sketch and paint stages
    share: every part carrying inline image data overwrites the stage's session key,
    tries to upload the image (a failed upload is swallowed) and submits one log record. */
module PartScan {
  import opened Sessions

  /** One part of a model response: optional caption text, optional inline image. */
  datatype Part = Part(text: Option<string>, inlineData: Option<Image>)

  /** The session key a stage's scan writes: 'drawing' for the sketch, 'painting' for the painting. */
  datatype Slot = DrawingSlot | PaintingSlot

  /** One document sent by `submit_log`: the stage tag, the browser locale and the
      `artwork_image_url` the session holds at the moment of the call. */
  datatype LogRecord = LogRecord(status: string, locale: Option<string>, artworkUrl: Option<string>)

  /** The session and the log records after some prefix of the parts. */
  datatype Scanned = Scanned(session: Session, logs: seq<LogRecord>)

  function SlotKey(slot: Slot): Key
  {
    match slot
    case DrawingSlot => DrawingKey
    case PaintingSlot => PaintingKey
  }

  /** The `workflow_status` each stage logs. */
  function Tag(slot: Slot): string
  {
    match slot
    case DrawingSlot => "sketch"
    case PaintingSlot => "painting"
  }

  function SlotValue(s: Session, slot: Slot): Option<Image>
  {
    match slot
    case DrawingSlot => s.drawing
    case PaintingSlot => s.painting
  }

  function PutSlot(s: Session, slot: Slot, img: Image): (r: Session)
    ensures SlotValue(r, slot) == Some(img)
    ensures forall k :: k != SlotKey(slot) ==> Agree(r, s, k)
  {
    match slot
    case DrawingSlot => s.(drawing := Some(img))
    case PaintingSlot => s.(painting := Some(img))
  }

  /** The body of the loop for the part at position `pos`; `store(pos)` is the storage
      upload's outcome for that part (`None` when it raised). */
  function ScanPart(acc: Scanned, slot: Slot, part: Part, pos: nat,
                    store: nat -> Option<string>, locale: Option<string>): Scanned
  {
    if part.inlineData.None? then acc
    else
      var withImage := PutSlot(acc.session, slot, part.inlineData.value);
      var withUrl := if store(pos).Some? then withImage.(artworkUrl := store(pos)) else withImage;
      Scanned(withUrl, acc.logs + [LogRecord(Tag(slot), locale, withUrl.artworkUrl)])
  }

  /** The loop over all parts, in order, starting from session `s` and no records. */
  function Scan(s: Session, slot: Slot, parts: seq<Part>,
                store: nat -> Option<string>, locale: Option<string>): Scanned
    decreases |parts|
  {
    if parts == [] then Scanned(s, [])
    else
      var n := |parts| - 1;
      ScanPart(Scan(s, slot, parts[..n], store, locale), slot, parts[n], n, store, locale)
  }

  // ---- reference definitions -------------------------------------------------

  predicate NoImage(parts: seq<Part>)
  {
    forall j :: 0 <= j < |parts| ==> parts[j].inlineData.None?
  }

  /** Part `i` carries an image and no later part does. */
  predicate IsLastImage(parts: seq<Part>, i: int)
  {
    0 <= i < |parts| && parts[i].inlineData.Some? &&
    forall j :: i < j < |parts| ==> parts[j].inlineData.None?
  }

  /** Part `i` carries an image whose upload succeeded, and no later part does both. */
  predicate IsLastStored(parts: seq<Part>, store: nat -> Option<string>, i: int)
  {
    0 <= i < |parts| && parts[i].inlineData.Some? && store(i).Some? &&
    forall j :: i < j < |parts| ==> parts[j].inlineData.None? || store(j).None?
  }

  predicate NoneStored(parts: seq<Part>, store: nat -> Option<string>)
  {
    forall j :: 0 <= j < |parts| ==> parts[j].inlineData.None? || store(j).None?
  }

  /** The number of parts that carry an image. */
  function ImageCount(parts: seq<Part>): nat
  {
    if parts == [] then 0
    else ImageCount(parts[..|parts| - 1]) + if parts[|parts| - 1].inlineData.Some? then 1 else 0
  }

  // ---- properties of the scan --------------------------------------------------

  lemma {:induction false} ImageCountZero(parts: seq<Part>)
    ensures ImageCount(parts) == 0 <==> NoImage(parts)
  {
    if parts != [] {
      var n := |parts| - 1;
      ImageCountZero(parts[..n]);
      assert forall j :: 0 <= j < n ==> parts[..n][j] == parts[j];
    }
  }

  /** When some part carries an image, one of them is the last. */
  lemma {:induction false} LastImageExists(parts: seq<Part>)
    requires !NoImage(parts)
    ensures exists i :: IsLastImage(parts, i)
  {
    var n := |parts| - 1;
    if parts[n].inlineData.Some? {
      assert IsLastImage(parts, n);
    } else {
      assert !NoImage(parts[..n]) by {
        var j :| 0 <= j < |parts| && parts[j].inlineData.Some?;
        assert j < n && parts[..n][j] == parts[j];
      }
      LastImageExists(parts[..n]);
      var i :| IsLastImage(parts[..n], i);
      assert IsLastImage(parts, i);
    }
  }

  /** Only the stage's key and 'artwork_image_url' can change. */
  lemma {:induction false} ScanFrame(s: Session, slot: Slot, parts: seq<Part>,
                                     store: nat -> Option<string>, locale: Option<string>)
    ensures forall k :: k != SlotKey(slot) && k != ArtworkUrlKey ==> Agree(Scan(s, slot, parts, store, locale).session, s, k)
  {
    if parts != [] {
      var n := |parts| - 1;
      var acc := Scan(s, slot, parts[..n], store, locale);
      var r := Scan(s, slot, parts, store, locale);
      ScanFrame(s, slot, parts[..n], store, locale);
      forall k | k != SlotKey(slot) && k != ArtworkUrlKey
        ensures Agree(r.session, s, k)
      {
        assert Agree(acc.session, s, k);
        if parts[n].inlineData.Some? {
          var withImage := PutSlot(acc.session, slot, parts[n].inlineData.value);
          assert Agree(withImage, acc.session, k);
          match k
          case UploadKey => case FileKey => case ImageKey => case IsCatKey => case DrawingKey =>
          case PaintingKey => case ArtworkUrlKey => case LocaleKey => case ClientKey =>
        }
      }
    }
  }

  /** What the last part does: a part without an image changes nothing; an image part
      puts its image in the stage's key, and its URL too when its upload succeeded. */
  lemma ScanLastStep(s: Session, slot: Slot, parts: seq<Part>,
                     store: nat -> Option<string>, locale: Option<string>)
    requires parts != []
    ensures var n := |parts| - 1;
      var acc := Scan(s, slot, parts[..n], store, locale);
      var r := Scan(s, slot, parts, store, locale);
      && (parts[n].inlineData.None? ==> r == acc)
      && (parts[n].inlineData.Some? ==> SlotValue(r.session, slot) == parts[n].inlineData)
      && (parts[n].inlineData.Some? && store(n).Some? ==> r.session.artworkUrl == store(n))
      && (parts[n].inlineData.None? || store(n).None? ==> r.session.artworkUrl == acc.session.artworkUrl)
  {
    var n := |parts| - 1;
    var acc := Scan(s, slot, parts[..n], store, locale);
    if parts[n].inlineData.Some? {
      var withImage := PutSlot(acc.session, slot, parts[n].inlineData.value);
      assert withImage.artworkUrl == acc.session.artworkUrl by {
        assert Agree(withImage, acc.session, ArtworkUrlKey);
      }
      match slot {
        case DrawingSlot =>
        case PaintingSlot =>
      }
    }
  }

  /** The key ends up holding the image of the LAST image part, whatever the uploads
      did, and keeps its old value when no part carries an image. */
  lemma {:induction false} ScanKeepsLastImage(s: Session, slot: Slot, parts: seq<Part>,
                                              store: nat -> Option<string>, locale: Option<string>)
    ensures NoImage(parts) ==> SlotValue(Scan(s, slot, parts, store, locale).session, slot) == SlotValue(s, slot)
    ensures forall i :: IsLastImage(parts, i) ==>
              SlotValue(Scan(s, slot, parts, store, locale).session, slot) == parts[i].inlineData
  {
    if parts != [] {
      var n := |parts| - 1;
      var prefix := parts[..n];
      var r := Scan(s, slot, parts, store, locale);
      ScanLastStep(s, slot, parts, store, locale);
      ScanKeepsLastImage(s, slot, prefix, store, locale);
      assert forall j :: 0 <= j < n ==> prefix[j] == parts[j];
      if parts[n].inlineData.None? {
        forall i | IsLastImage(parts, i)
          ensures SlotValue(r.session, slot) == parts[i].inlineData
        {
          assert IsLastImage(prefix, i);
        }
      } else {
        assert !NoImage(parts);
        forall i | IsLastImage(parts, i)
          ensures SlotValue(r.session, slot) == parts[i].inlineData
        {
          assert i == n;
        }
      }
    }
  }

  /** 'artwork_image_url' ends up holding the URL of the last successful upload, and
      keeps its old value when no upload succeeded. */
  lemma {:induction false} ScanKeepsLastUrl(s: Session, slot: Slot, parts: seq<Part>,
                                            store: nat -> Option<string>, locale: Option<string>)
    ensures NoneStored(parts, store) ==> Scan(s, slot, parts, store, locale).session.artworkUrl == s.artworkUrl
    ensures forall i :: IsLastStored(parts, store, i) ==>
              Scan(s, slot, parts, store, locale).session.artworkUrl == store(i)
  {
    if parts != [] {
      var n := |parts| - 1;
      var prefix := parts[..n];
      var r := Scan(s, slot, parts, store, locale);
      ScanLastStep(s, slot, parts, store, locale);
      ScanKeepsLastUrl(s, slot, prefix, store, locale);
      assert forall j :: 0 <= j < n ==> prefix[j] == parts[j];
      if parts[n].inlineData.None? || store(n).None? {
        if NoneStored(parts, store) {
          assert NoneStored(prefix, store);
        }
        forall i | IsLastStored(parts, store, i)
          ensures r.session.artworkUrl == store(i)
        {
          assert IsLastStored(prefix, store, i);
        }
      } else {
        assert !NoneStored(parts, store);
        forall i | IsLastStored(parts, store, i)
          ensures r.session.artworkUrl == store(i)
        {
          assert i == n;
        }
      }
    }
  }

  /** `submit_log` runs once per image part, failed upload or not, with the stage's tag
      and the browser locale; the last record carries the URL the session ends with. */
  lemma {:induction false} ScanLogs(s: Session, slot: Slot, parts: seq<Part>,
                                    store: nat -> Option<string>, locale: Option<string>)
    ensures var r := Scan(s, slot, parts, store, locale);
      && |r.logs| == ImageCount(parts)
      && (forall j :: 0 <= j < |r.logs| ==> r.logs[j].status == Tag(slot) && r.logs[j].locale == locale)
      && (|r.logs| > 0 ==> r.logs[|r.logs| - 1].artworkUrl == r.session.artworkUrl)
  {
    if parts != [] {
      var n := |parts| - 1;
      ScanLogs(s, slot, parts[..n], store, locale);
    }
  }

  /** The stage's key is present afterwards iff it was already, or some part carried an
      image; and which image it holds does not depend on the storage outcomes. */
  lemma ScanSetsSlot(s: Session, slot: Slot, parts: seq<Part>,
                     store: nat -> Option<string>, other: nat -> Option<string>, locale: Option<string>)
    ensures Has(Scan(s, slot, parts, store, locale).session, SlotKey(slot)) <==> Has(s, SlotKey(slot)) || !NoImage(parts)
    ensures SlotValue(Scan(s, slot, parts, store, locale).session, slot) == SlotValue(Scan(s, slot, parts, other, locale).session, slot)
  {
    ScanKeepsLastImage(s, slot, parts, store, locale);
    ScanKeepsLastImage(s, slot, parts, other, locale);
    if !NoImage(parts) {
      LastImageExists(parts);
    }
  }
}
