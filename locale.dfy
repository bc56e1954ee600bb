/** The locale gate at the top of every run: the browser's locale is reduced to its
    last hyphen-separated segment, lower-cased, stored in the session, and only "us"
    lets the run go on. */
module Locale {
  import opened Sessions

  /** The value `st.session_state.get('locale', 'missing')` compares against. */
  const Missing: string := "missing"

  /** The region code the app accepts. */
  const Supported: string := "us"

  /** `s.split('-')[-1]`: the longest suffix of `s` without a hyphen. */
  function LastSegment(s: string): (r: string)
    ensures '-' !in r
    ensures |r| <= |s| && r == s[|s| - |r|..]
    ensures |r| < |s| ==> s[|s| - |r| - 1] == '-'
  {
    if s == [] then []
    else if s[|s| - 1] == '-' then []
    else LastSegment(s[..|s| - 1]) + [s[|s| - 1]]
  }

  /** ASCII case folding of one character. */
  function LowerChar(c: char): char
  {
    if 'A' <= c <= 'Z' then (c as int - 'A' as int + 'a' as int) as char else c
  }

  /** `s.lower()`, on ASCII letters. */
  function Lower(s: string): (r: string)
    ensures |r| == |s|
    ensures forall i :: 0 <= i < |s| ==> r[i] == LowerChar(s[i])
  {
    if s == [] then [] else Lower(s[..|s| - 1]) + [LowerChar(s[|s| - 1])]
  }

  /** `st.context.locale.split('-')[-1].lower()`: the longest hyphen-free suffix of the
      locale, folded to small letters. */
  function RegionOf(locale: string): (r: string)
    ensures |r| <= |locale| && r == Lower(locale[|locale| - |r|..])
    ensures '-' !in r
    ensures |r| < |locale| ==> locale[|locale| - |r| - 1] == '-'
  {
    var seg := LastSegment(locale);
    LowerKeepsNoHyphen(seg);
    Lower(seg)
  }

  /** Case folding does not create a hyphen. */
  lemma LowerKeepsNoHyphen(s: string)
    requires '-' !in s
    ensures '-' !in Lower(s)
  {
    var r := Lower(s);
    forall i | 0 <= i < |r| ensures r[i] != '-' {
      assert s[i] != '-';
    }
  }

  /** The gate runs only while the key is absent or holds the default "missing". */
  predicate NeedsLocale(s: Session)
  {
    s.locale.None? || s.locale.value == Missing
  }

  datatype GateResult = GateResult(session: Session, proceed: bool)

  /** The gate of app(): when it runs it stores the region BEFORE checking it; a browser
      without a locale (`None.split` raises, the handler stops the run) stores nothing. */
  function LocaleGate(s: Session, context: Option<string>): (g: GateResult)
    ensures forall k :: k != LocaleKey ==> Agree(g.session, s, k)
    ensures !NeedsLocale(s) ==> g == GateResult(s, true)
    ensures NeedsLocale(s) && context.Some? ==>
              g.session.locale == Some(RegionOf(context.value)) && (g.proceed <==> RegionOf(context.value) == Supported)
    ensures NeedsLocale(s) && context.None? ==> g == GateResult(s, false)
  {
    if !NeedsLocale(s) then GateResult(s, true)
    else match context
      case None => GateResult(s, false)
      case Some(c) =>
        var region := RegionOf(c);
        var stored := s.(locale := Some(region));
        StoringLocaleKeepsRest(s, stored);
        GateResult(stored, region == Supported)
  }

  /** Writing 'locale' leaves every other key as it was. */
  lemma StoringLocaleKeepsRest(s: Session, t: Session)
    requires t == s.(locale := t.locale)
    ensures forall k :: k != LocaleKey ==> Agree(t, s, k)
  {
    forall k | k != LocaleKey ensures Agree(t, s, k) {
      match k
      case UploadKey => case FileKey => case ImageKey => case IsCatKey => case DrawingKey =>
      case PaintingKey => case ArtworkUrlKey => case LocaleKey => case ClientKey =>
    }
  }

  /** Which browser locales pass: exactly those whose last segment is "us" in any case. */
  lemma {:induction false} RegionIsUs(c: string)
    ensures RegionOf(c) == Supported <==>
              |c| >= 2 && LowerChar(c[|c| - 2]) == 'u' && LowerChar(c[|c| - 1]) == 's' &&
              (|c| == 2 || c[|c| - 3] == '-')
  {
    var seg := LastSegment(c);
    var low := Lower(seg);
    if low == Supported {
      assert |seg| == 2;
      assert seg == c[|c| - 2..];
      assert LowerChar(seg[0]) == 'u' && LowerChar(seg[1]) == 's';
    }
    if |c| >= 2 && LowerChar(c[|c| - 2]) == 'u' && LowerChar(c[|c| - 1]) == 's' && (|c| == 2 || c[|c| - 3] == '-') {
      assert c[|c| - 1] != '-' && c[|c| - 2] != '-';
      assert |seg| == 2;
      assert seg == c[|c| - 2..];
      assert low == [LowerChar(c[|c| - 2]), LowerChar(c[|c| - 1])];
    }
  }

  /** A browser reporting "en-US" is let through and stored as "us". */
  lemma EnUsPasses(s: Session)
    requires NeedsLocale(s)
    ensures LocaleGate(s, Some("en-US")) == GateResult(s.(locale := Some("us")), true)
  {
    RegionIsUs("en-US");
    assert |RegionOf("en-US")| == 2;
    var g := LocaleGate(s, Some("en-US"));
    AgreeEverywhere(g.session, s.(locale := Some("us")));
  }

  /** Because the region is stored before it is checked, a run stopped by the gate
      leaves a locale behind that makes every later run skip the gate. */
  lemma {:induction false} RejectedRegionSkipsGateLater(s: Session, c: string, later: Option<string>)
    requires NeedsLocale(s)
    requires RegionOf(c) != Supported && RegionOf(c) != Missing
    ensures !LocaleGate(s, Some(c)).proceed
    ensures LocaleGate(LocaleGate(s, Some(c)).session, later) == GateResult(LocaleGate(s, Some(c)).session, true)
  {
  }
}
