/** The stage choice at the bottom of app(): an if/elif chain over which session keys
    are present and over the verdict's `is_cat` flag. */
module Dispatcher {
  import opened Sessions

  /** The workflow each branch of the chain runs. `StartOverOnly` is the last `else`,
      which only offers "Start Over"; `VerdictFault` is the chain raising
      AttributeError because 'is_cat' holds None instead of a verdict. */
  datatype Stage = AwaitUpload | CheckCat | DrawCat | PaintCat | StartOverOnly | VerdictFault

  /** 'is_cat' holds a parsed verdict whose flag is `flag`. */
  predicate JudgedAs(s: Session, flag: bool)
  {
    s.isCat.Some? && s.isCat.value.Judged? && s.isCat.value.isCat == flag
  }

  /** Each stage is chosen exactly under its own condition; the conditions are
      disjoint and, since a function has one result, cover every session. A drawing
      sends the run to painting whatever the verdict says. */
  function Dispatch(s: Session): (stage: Stage)
    ensures stage == AwaitUpload <==> !Has(s, ImageKey)
    ensures stage == CheckCat <==> Has(s, ImageKey) && !Has(s, IsCatKey)
    ensures stage == DrawCat <==> Has(s, ImageKey) && !Has(s, DrawingKey) && JudgedAs(s, true)
    ensures stage == PaintCat <==> Has(s, ImageKey) && Has(s, IsCatKey) && Has(s, DrawingKey)
    ensures stage == StartOverOnly <==> Has(s, ImageKey) && !Has(s, DrawingKey) && JudgedAs(s, false)
    ensures stage == VerdictFault <==> Has(s, ImageKey) && !Has(s, DrawingKey) && s.isCat == Some(Unparsed)
  {
    if s.image.None? then AwaitUpload
    else if s.isCat.None? then CheckCat
    // `'drawing' not in ... and ... and st.session_state.is_cat.is_cat`: the flag is only
    // read when the drawing is absent, and reading it off None raises
    else if s.drawing.None? && s.isCat.value.Unparsed? then VerdictFault
    else if s.drawing.None? && s.isCat.value.isCat then DrawCat
    else if s.drawing.Some? then PaintCat
    else StartOverOnly
  }

  /** The choice reads nothing but 'image', 'is_cat' and 'drawing': in particular a
      painting, a stored URL or the locale never influence it. */
  lemma DispatchReadsThreeKeys(s: Session, t: Session)
    requires Agree(s, t, ImageKey) && Agree(s, t, IsCatKey) && Agree(s, t, DrawingKey)
    ensures Dispatch(s) == Dispatch(t)
  {
  }
}
