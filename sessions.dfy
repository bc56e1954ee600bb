/** The per-user session record of the Clawdia Monet app: one optional slot per
    session key, and the `pop(key, None)` operation the clear callbacks use. */
module Sessions {

  datatype Option<T> = None | Some(value: T)

  /** A decoded raster image. `picture` abstracts its pixels: it identifies what the
      image depicts, so that a resized copy keeps the picture and changes the size. */
  datatype Image = Image(width: nat, height: nat, picture: int)

  /** A file handed over by the upload widget, with the MIME type the browser reported. */
  datatype UploadedFile = UploadedFile(name: string, mimeType: string)

  /** What the cat check stores under `is_cat`: the structured answer of the model, or
      `Unparsed` when the model's JSON did not fit the schema and `parsed` was None. */
  datatype Verdict = Judged(isCat: bool, observation: string) | Unparsed

  /** The model service client kept in the session; only its presence matters here. */
  datatype Client = Client(apiKey: string)

  /** One field per session key; `None` means the key is absent. */
  datatype Session = Session(
    upload: Option<UploadedFile>,   // key 'upload': the uploader widget's value
    file: Option<UploadedFile>,     // key 'file'
    image: Option<Image>,           // key 'image': the normalised photo
    isCat: Option<Verdict>,         // key 'is_cat'
    drawing: Option<Image>,         // key 'drawing': the sketch
    painting: Option<Image>,        // key 'painting'
    artworkUrl: Option<string>,     // key 'artwork_image_url'
    locale: Option<string>,         // key 'locale'
    client: Option<Client>          // key 'client'
  )

  datatype Key = UploadKey | FileKey | ImageKey | IsCatKey | DrawingKey
               | PaintingKey | ArtworkUrlKey | LocaleKey | ClientKey

  /** The session as a fresh browser tab sees it: no key at all. */
  const Fresh: Session := Session(None, None, None, None, None, None, None, None, None)

  /** The keys that "Start Over" pops. */
  const ResetKeys: set<Key> := {UploadKey, ImageKey, IsCatKey, DrawingKey}

  /** `k in st.session_state` */
  predicate Has(s: Session, k: Key)
  {
    match k
    case UploadKey => s.upload.Some?
    case FileKey => s.file.Some?
    case ImageKey => s.image.Some?
    case IsCatKey => s.isCat.Some?
    case DrawingKey => s.drawing.Some?
    case PaintingKey => s.painting.Some?
    case ArtworkUrlKey => s.artworkUrl.Some?
    case LocaleKey => s.locale.Some?
    case ClientKey => s.client.Some?
  }

  /** Both sessions hold the same thing under `k` (or both lack it). */
  predicate Agree(s: Session, t: Session, k: Key)
  {
    match k
    case UploadKey => s.upload == t.upload
    case FileKey => s.file == t.file
    case ImageKey => s.image == t.image
    case IsCatKey => s.isCat == t.isCat
    case DrawingKey => s.drawing == t.drawing
    case PaintingKey => s.painting == t.painting
    case ArtworkUrlKey => s.artworkUrl == t.artworkUrl
    case LocaleKey => s.locale == t.locale
    case ClientKey => s.client == t.client
  }

  /** Two sessions that agree on every key are the same session. */
  lemma AgreeEverywhere(s: Session, t: Session)
    requires forall k :: Agree(s, t, k)
    ensures s == t
  {
    assert Agree(s, t, UploadKey) && Agree(s, t, FileKey) && Agree(s, t, ImageKey);
    assert Agree(s, t, IsCatKey) && Agree(s, t, DrawingKey) && Agree(s, t, PaintingKey);
    assert Agree(s, t, ArtworkUrlKey) && Agree(s, t, LocaleKey) && Agree(s, t, ClientKey);
  }

  /** Agreement key by key composes. */
  lemma AgreeTrans(a: Session, b: Session, c: Session)
    ensures forall k :: Agree(a, b, k) && Agree(b, c, k) ==> Agree(a, c, k)
  {
    forall k | Agree(a, b, k) && Agree(b, c, k) ensures Agree(a, c, k) {
      match k
      case UploadKey => case FileKey => case ImageKey => case IsCatKey => case DrawingKey =>
      case PaintingKey => case ArtworkUrlKey => case LocaleKey => case ClientKey =>
    }
  }

  /** `st.session_state.pop(k, None)` for every `k` in `ks`. */
  function Pop(s: Session, ks: set<Key>): Session
  {
    Session(
      if UploadKey in ks then None else s.upload,
      if FileKey in ks then None else s.file,
      if ImageKey in ks then None else s.image,
      if IsCatKey in ks then None else s.isCat,
      if DrawingKey in ks then None else s.drawing,
      if PaintingKey in ks then None else s.painting,
      if ArtworkUrlKey in ks then None else s.artworkUrl,
      if LocaleKey in ks then None else s.locale,
      if ClientKey in ks then None else s.client)
  }

  /** The keys in `ks` are gone, every other key keeps what it held, and a key that
      was already absent is no error. */
  lemma PopKeys(s: Session, ks: set<Key>)
    ensures forall k :: Has(Pop(s, ks), k) <==> Has(s, k) && k !in ks
    ensures forall k :: k !in ks ==> Agree(Pop(s, ks), s, k)
  {
    var r := Pop(s, ks);
    forall k ensures (Has(r, k) <==> Has(s, k) && k !in ks) && (k !in ks ==> Agree(r, s, k)) {
      match k
      case UploadKey => case FileKey => case ImageKey => case IsCatKey => case DrawingKey =>
      case PaintingKey => case ArtworkUrlKey => case LocaleKey => case ClientKey =>
    }
  }

  /** Popping with a default is idempotent: a second clear finds nothing to remove. */
  lemma PopIdempotent(s: Session, ks: set<Key>)
    ensures Pop(Pop(s, ks), ks) == Pop(s, ks)
  {
    var once := Pop(s, ks);
    PopKeys(s, ks);
    PopKeys(once, ks);
    forall k ensures Agree(Pop(once, ks), once, k) {
      if k in ks {
        assert !Has(Pop(once, ks), k) && !Has(once, k);
      }
    }
    AgreeEverywhere(Pop(once, ks), once);
  }

  /** The order the workflow fills the session in: a later artefact implies the
      earlier ones (a drawing needs a positive verdict, a verdict needs a photo). */
  predicate InWorkflowOrder(s: Session)
  {
    && (s.isCat.Some? ==> s.image.Some?)
    && (s.drawing.Some? ==> s.isCat.Some?)
    && (s.painting.Some? ==> s.drawing.Some?)
  }

  /** "Start Over" leaves the painting behind, so it breaks the workflow order of any
      session that holds a painting. */
  lemma ResetKeepsPaintingOutOfOrder(s: Session)
    requires s.painting.Some?
    ensures Pop(s, ResetKeys).painting == s.painting
    ensures !InWorkflowOrder(Pop(s, ResetKeys))
  {
    PopKeys(s, ResetKeys);
    assert !Has(Pop(s, ResetKeys), DrawingKey);
  }
}
