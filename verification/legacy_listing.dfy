/** The offline converter that turns a legacy CAD listing into the segment
    template (build_segments_from_cs.py): each line is stripped, coordinate
    assignments `x0 = …;`, `y1 = …;` are buffered, and each `AddSegment`
    line emits one `(kind, x0, y0, x1, y1)` tuple of expression texts and
    empties the buffer. */
module LegacyListing {
  import opened Outcomes

  // ---------------------------------------------------------------------
  // Characters and stripping
  // ---------------------------------------------------------------------

  /** The characters Python's `str.strip()` and the regex class `\s` treat
      as whitespace. */
  predicate IsSpace(c: char) {
    c == ' ' || ('\t' <= c <= '\r') || ('\U{1C}' <= c <= '\U{1F}') ||
    c == '\U{85}' || c == '\U{A0}' || c == '\U{1680}' ||
    ('\U{2000}' <= c <= '\U{200A}') || c == '\U{2028}' || c == '\U{2029}' ||
    c == '\U{202F}' || c == '\U{205F}' || c == '\U{3000}'
  }

  /** The characters of the regex class `\w`, restricted to ASCII. */
  predicate IsWordChar(c: char) {
    ('a' <= c <= 'z') || ('A' <= c <= 'Z') || ('0' <= c <= '9') || c == '_'
  }

  /** Length of the longest all-whitespace prefix. */
  function LeadingSpaces(s: string): (n: nat)
    ensures n <= |s|
  {
    if s == [] || !IsSpace(s[0]) then 0 else 1 + LeadingSpaces(s[1..])
  }

  /** Length of the longest all-whitespace suffix. */
  function TrailingSpaces(s: string): (n: nat)
    ensures n <= |s|
    decreases |s|
  {
    if s == [] || !IsSpace(s[|s| - 1]) then 0 else 1 + TrailingSpaces(s[..|s| - 1])
  }

  /** The leading run is whitespace and ends at a non-whitespace character
      or at the end. */
  lemma {:induction false} LeadingSpacesAreSpaces(s: string)
    ensures forall i :: 0 <= i < LeadingSpaces(s) ==> IsSpace(s[i])
    ensures LeadingSpaces(s) < |s| ==> !IsSpace(s[LeadingSpaces(s)])
  {
    if s != [] && IsSpace(s[0]) {
      LeadingSpacesAreSpaces(s[1..]);
    }
  }

  /** The trailing run is whitespace and starts after a non-whitespace
      character or at the start. */
  lemma {:induction false} TrailingSpacesAreSpaces(s: string)
    ensures forall i :: |s| - TrailingSpaces(s) <= i < |s| ==> IsSpace(s[i])
    ensures TrailingSpaces(s) < |s| ==> !IsSpace(s[|s| - TrailingSpaces(s) - 1])
    decreases |s|
  {
    if s != [] && IsSpace(s[|s| - 1]) {
      TrailingSpacesAreSpaces(s[..|s| - 1]);
    }
  }

  /** `str.strip()`: the line without its surrounding whitespace. */
  function Strip(s: string): (r: string)
    ensures |r| <= |s|
  {
    var t := s[LeadingSpaces(s)..];
    t[..|t| - TrailingSpaces(t)]
  }

  /** What `str.strip()` keeps is the slice of the line right after its
      leading whitespace: characters are removed, never changed. Only
      whitespace follows the slice, and the slice neither starts nor ends
      with whitespace. */
  lemma StripRemovesSurroundingWhitespace(s: string)
    ensures LeadingSpaces(s) + |Strip(s)| <= |s|
    ensures Strip(s) == s[LeadingSpaces(s)..LeadingSpaces(s) + |Strip(s)|]
    ensures forall k :: LeadingSpaces(s) + |Strip(s)| <= k < |s| ==> IsSpace(s[k])
    ensures |Strip(s)| == 0 || (!IsSpace(Strip(s)[0]) && !IsSpace(Strip(s)[|Strip(s)| - 1]))
  {
    var lead := LeadingSpaces(s);
    var t := s[lead..];
    LeadingSpacesAreSpaces(s);
    TrailingSpacesAreSpaces(t);
    assert forall k :: lead + |Strip(s)| <= k < |s| ==> s[k] == t[k - lead];
  }

  // ---------------------------------------------------------------------
  // The two assignment patterns: `x([01])\s*=\s*(.+);` and its y twin
  // ---------------------------------------------------------------------

  /** Length of the longest prefix without a newline: how far `.` reaches. */
  function DotRun(s: string): (n: nat)
    ensures n <= |s|
    ensures forall i :: 0 <= i < n ==> s[i] != '\n'
    ensures n < |s| ==> s[n] == '\n'
  {
    if s == [] || s[0] == '\n' then 0 else 1 + DotRun(s[1..])
  }

  /** The largest index in [lo, hi) holding a semicolon, if any. */
  function LastSemicolon(t: string, lo: nat, hi: nat): (r: Option<nat>)
    requires hi <= |t|
    ensures r.Some? ==> lo <= r.value < hi && t[r.value] == ';' &&
                        forall k :: r.value < k < hi ==> t[k] != ';'
    ensures r.None? ==> forall k :: lo <= k < hi ==> t[k] != ';'
    decreases hi
  {
    if hi <= lo then None
    else if t[hi - 1] == ';' then Some(hi - 1)
    else LastSemicolon(t, lo, hi - 1)
  }

  /** `\s*(.+);` matched at the start of `t`, the way the backtracking
      matcher finds it: the `\s*` run as long as possible first, and for each
      run the `.+` group as long as possible, ending before a semicolon. */
  function CaptureFrom(t: string, j: nat): (r: Option<string>)
    requires j <= |t|
    ensures r.Some? ==> |r.value| > 0 && '\n' !in r.value
    decreases j
  {
    match LastSemicolon(t, j + 1, j + DotRun(t[j..]))
    case Some(e) => Some(t[j..e])
    case None => if j == 0 then None else CaptureFrom(t, j - 1)
  }

  /** The text after `=`: the whitespace-skipping `\s*` and the captured
      group; a capture is never empty. */
  function Capture(t: string): (r: Option<string>)
    ensures r.Some? ==> |r.value| > 0
  {
    CaptureFrom(t, LeadingSpaces(t))
  }

  /** `re.match(letter + r'([01])\s*=\s*(.+);', line)`: anchored at the
      start of the line; gives the digit and the captured expression. */
  function MatchAssign(line: string, letter: char): (r: Option<(char, string)>)
    ensures r.Some? ==> |line| >= 2 && line[0] == letter && r.value.0 == line[1] &&
                        (line[1] == '0' || line[1] == '1')
  {
    if |line| < 2 || line[0] != letter || !(line[1] == '0' || line[1] == '1') then None
    else
      var i := 2 + LeadingSpaces(line[2..]);
      if i < |line| && line[i] == '=' then
        match Capture(line[i + 1..])
        case Some(e) => Some((line[1], e))
        case None => None
      else None
  }

  lemma {:induction false} CaptureFromWithoutSemicolon(t: string, j: nat)
    requires j <= |t|
    requires forall k :: 0 <= k < |t| ==> t[k] != ';'
    ensures CaptureFrom(t, j) == None
    decreases j
  {
    if j > 0 {
      CaptureFromWithoutSemicolon(t, j - 1);
    }
  }

  /** Without newlines, `.` reaches the end of the text. */
  lemma DotRunReachesEnd(t: string, j: nat)
    requires '\n' !in t && j <= |t|
    ensures DotRun(t[j..]) == |t| - j
  {
  }

  /** A semicolon with none after it in [lo, hi) is the one found. */
  lemma LastSemicolonIsUnique(t: string, lo: nat, hi: nat, e: nat)
    requires hi <= |t| && lo <= e < hi && t[e] == ';'
    requires forall k :: e < k < hi ==> t[k] != ';'
    ensures LastSemicolon(t, lo, hi) == Some(e)
  {
  }

  /** With a last semicolon at `e` beyond the start `j`, the group runs
      from `j` up to that semicolon. */
  lemma {:induction false} CaptureFromFindsLast(t: string, j: nat, e: nat)
    requires '\n' !in t && j < e < |t| && t[e] == ';'
    requires forall k :: e < k < |t| ==> t[k] != ';'
    ensures CaptureFrom(t, j) == Some(t[j..e])
  {
    DotRunReachesEnd(t, j);
    LastSemicolonIsUnique(t, j + 1, |t|, e);
  }

  /** With the last semicolon right at the start `j`, the group cannot be
      empty, so the matcher gives back one character to it, if there is one. */
  lemma {:induction false} CaptureFromBacktracks(t: string, j: nat)
    requires '\n' !in t && j < |t| && t[j] == ';'
    requires forall k :: j < k < |t| ==> t[k] != ';'
    ensures CaptureFrom(t, j) == if 0 < j then Some(t[j - 1..j]) else None
  {
    DotRunReachesEnd(t, j);
    assert LastSemicolon(t, j + 1, |t|) == None;
    if 0 < j {
      CaptureFromFindsLast(t, j - 1, j);
    }
  }

  lemma {:induction false} CaptureAfterSpaces(t: string, e: nat)
    requires '\n' !in t && LastSemicolon(t, 0, |t|) == Some(e) && LeadingSpaces(t) < e
    ensures Capture(t) == Some(t[LeadingSpaces(t)..e])
  {
    CaptureFromFindsLast(t, LeadingSpaces(t), e);
  }

  lemma {:induction false} CaptureBacktracksIntoSpaces(t: string, e: nat)
    requires '\n' !in t && LastSemicolon(t, 0, |t|) == Some(e) && e <= LeadingSpaces(t)
    ensures e == LeadingSpaces(t)
    ensures Capture(t) == if 0 < e then Some(t[e - 1..e]) else None
  {
    LeadingSpacesAreSpaces(t);
    assert !IsSpace(t[e]);
    CaptureFromBacktracks(t, e);
  }

  /** On a line without newlines (every line `splitlines` yields) the
      captured expression is the text after the leading whitespace up to
      the LAST semicolon. When that semicolon directly follows the
      whitespace, the matcher backtracks one whitespace character into the
      group, which is then that single character; with no whitespace at all
      there is no match. */
  lemma {:induction false} CaptureIsTextUpToLastSemicolon(t: string)
    requires '\n' !in t
    ensures LastSemicolon(t, 0, |t|).None? ==> Capture(t) == None
    ensures LastSemicolon(t, 0, |t|).Some? ==>
      var e, k := LastSemicolon(t, 0, |t|).value, LeadingSpaces(t);
      Capture(t) == (if k < e then Some(t[k..e]) else if 0 < k then Some(t[k - 1..k]) else None)
  {
    var last := LastSemicolon(t, 0, |t|);
    if last.None? {
      CaptureFromWithoutSemicolon(t, LeadingSpaces(t));
    } else if LeadingSpaces(t) < last.value {
      CaptureAfterSpaces(t, last.value);
    } else {
      CaptureBacktracksIntoSpaces(t, last.value);
    }
  }

  // ---------------------------------------------------------------------
  // The AddSegment line: `'AddSegment' in line` and `\((lt\w+),`
  // ---------------------------------------------------------------------

  /** Substring test `w in s`. */
  predicate Contains(s: string, w: string)
    decreases |s|
  {
    |w| <= |s| && (s[..|w|] == w || Contains(s[1..], w))
  }

  /** `w` occurs in `s` starting at index i. */
  predicate OccursAt(s: string, w: string, i: nat) {
    i + |w| <= |s| && s[i..i + |w|] == w
  }

  /** The scan finds `w` exactly when `w` occurs somewhere in `s`. */
  lemma {:induction false} ContainsIsSubstring(s: string, w: string)
    ensures Contains(s, w) <==> exists i: nat :: OccursAt(s, w, i)
    decreases |s|
  {
    if |w| <= |s| {
      if s[..|w|] == w {
        assert OccursAt(s, w, 0);
      } else {
        var t := s[1..];
        ContainsIsSubstring(t, w);
        if Contains(t, w) {
          var i: nat :| OccursAt(t, w, i);
          assert s[i + 1..i + 1 + |w|] == t[i..i + |w|];
          assert OccursAt(s, w, i + 1);
        }
        if i: nat :| OccursAt(s, w, i) {
          if i > 0 {
            assert t[i - 1..i - 1 + |w|] == s[i..i + |w|];
            assert OccursAt(t, w, i - 1);
          }
        }
      }
    }
  }

  /** Length of the longest prefix of word characters. */
  function WordRun(s: string): (n: nat)
    ensures n <= |s|
    ensures forall i :: 0 <= i < n ==> IsWordChar(s[i])
    ensures n < |s| ==> !IsWordChar(s[n])
  {
    if s == [] || !IsWordChar(s[0]) then 0 else 1 + WordRun(s[1..])
  }

  /** `re.search(r'\((lt\w+),', s).group(1)` starting the scan at `p`: the
      first position holding `(lt`, at least one word character and a comma.
      The tag always starts with `lt` and is followed by word characters. */
  function KindTagFrom(s: string, p: nat): (r: Option<string>)
    requires p <= |s|
    ensures r.Some? ==> |r.value| >= 3 && r.value[..2] == "lt" &&
                        forall i :: 2 <= i < |r.value| ==> IsWordChar(r.value[i])
    decreases |s| - p
  {
    if p + 3 >= |s| then None
    else if s[p] == '(' && s[p + 1] == 'l' && s[p + 2] == 't' &&
            0 < WordRun(s[p + 3..]) && p + 3 + WordRun(s[p + 3..]) < |s| &&
            s[p + 3 + WordRun(s[p + 3..])] == ','
    then
      var tag := s[p + 1..p + 3 + WordRun(s[p + 3..])];
      assert forall i :: 2 <= i < |tag| ==> tag[i] == s[p + 3..][i - 2];
      Some(tag)
    else KindTagFrom(s, p + 1)
  }

  /** The tag of the first `(lt…,` in the line, the group the script reads. */
  function KindTag(s: string): Option<string> {
    KindTagFrom(s, 0)
  }

  /** `\((lt\w+),` matches at position p with group `tag`: an opening
      parenthesis, `lt`, at least one word character, then a comma. */
  predicate TagMatchesAt(s: string, p: nat, tag: string) {
    |tag| >= 3 && tag[..2] == "lt" && (forall i :: 2 <= i < |tag| ==> IsWordChar(tag[i])) &&
    p + |tag| + 2 <= |s| && s[p] == '(' && s[p + 1..p + 1 + |tag|] == tag && s[p + 1 + |tag|] == ','
  }

  /** A match at p has the tag the scan takes at p: the maximal word run
      after `(lt`, since a comma is not a word character. */
  lemma TagMatchIsTheScannedTag(s: string, p: nat, tag: string)
    requires TagMatchesAt(s, p, tag)
    ensures p + 3 < |s| && s[p] == '(' && s[p + 1] == 'l' && s[p + 2] == 't'
    ensures WordRun(s[p + 3..]) == |tag| - 2 && s[p + 3 + WordRun(s[p + 3..])] == ','
    ensures tag == s[p + 1..p + 3 + WordRun(s[p + 3..])]
  {
    var u, k := s[p + 3..], |tag| - 2;
    assert forall j :: 0 <= j < |tag| ==> s[p + 1 + j] == tag[j];
    assert s[p + 1] == tag[0] == 'l' && s[p + 2] == tag[1] == 't';
    assert forall j :: 0 <= j < k ==> u[j] == tag[2 + j];
    assert u[k] == ',';
  }

  /** Conversely, where the scan's test succeeds, the pattern matches with
      the scanned tag. */
  lemma ScannedTagMatches(s: string, p: nat)
    requires p + 3 < |s| && s[p] == '(' && s[p + 1] == 'l' && s[p + 2] == 't'
    requires 0 < WordRun(s[p + 3..]) && p + 3 + WordRun(s[p + 3..]) < |s|
    requires s[p + 3 + WordRun(s[p + 3..])] == ','
    ensures TagMatchesAt(s, p, s[p + 1..p + 3 + WordRun(s[p + 3..])])
  {
    var n := WordRun(s[p + 3..]);
    var tag := s[p + 1..p + 3 + n];
    assert forall i :: 2 <= i < |tag| ==> tag[i] == s[p + 3..][i - 2];
    assert tag[..2] == "lt";
  }

  /** The search returns the group of the leftmost position from p0 on where
      the pattern matches, and nothing when it matches nowhere. */
  lemma {:induction false} KindTagFromIsLeftmostMatch(s: string, p0: nat)
    requires p0 <= |s|
    ensures KindTagFrom(s, p0).Some? ==>
      exists p: nat :: p0 <= p && TagMatchesAt(s, p, KindTagFrom(s, p0).value) &&
        forall q: nat, tg :: p0 <= q < p ==> !TagMatchesAt(s, q, tg)
    ensures KindTagFrom(s, p0).None? ==> forall q: nat, tg :: p0 <= q ==> !TagMatchesAt(s, q, tg)
    decreases |s| - p0
  {
    if p0 + 3 >= |s| {
    } else if s[p0] == '(' && s[p0 + 1] == 'l' && s[p0 + 2] == 't' &&
              0 < WordRun(s[p0 + 3..]) && p0 + 3 + WordRun(s[p0 + 3..]) < |s| &&
              s[p0 + 3 + WordRun(s[p0 + 3..])] == ','
    {
      ScannedTagMatches(s, p0);
    } else {
      forall tg | TagMatchesAt(s, p0, tg)
        ensures false
      {
        TagMatchIsTheScannedTag(s, p0, tg);
      }
      KindTagFromIsLeftmostMatch(s, p0 + 1);
      if KindTagFrom(s, p0).Some? {
        var p: nat :| p0 + 1 <= p && TagMatchesAt(s, p, KindTagFrom(s, p0).value) &&
          forall q: nat, tg :: p0 + 1 <= q < p ==> !TagMatchesAt(s, q, tg);
        assert forall q: nat, tg :: p0 <= q < p ==> !TagMatchesAt(s, q, tg);
      }
    }
  }

  /** `re.search(r'\((lt\w+),', s).group(1)`: the group of the leftmost
      match, or nothing when the pattern occurs nowhere. */
  lemma KindTagIsLeftmostMatch(s: string)
    ensures KindTag(s).Some? ==>
      exists p: nat :: TagMatchesAt(s, p, KindTag(s).value) &&
        forall q: nat, tg :: q < p ==> !TagMatchesAt(s, q, tg)
    ensures KindTag(s).None? ==> forall q: nat, tg :: !TagMatchesAt(s, q, tg)
  {
    KindTagFromIsLeftmostMatch(s, 0);
  }

  /** `kind_map`: the two line types of the listing. */
  function KindOf(tag: string): (r: Option<string>)
    ensures r.Some? <==> tag == "ltCut" || tag == "ltFold"
    ensures r == Some("CUT") <==> tag == "ltCut"
    ensures r == Some("FOLD") <==> tag == "ltFold"
  {
    if tag == "ltCut" then Some("CUT")
    else if tag == "ltFold" then Some("FOLD")
    else None
  }

  // ---------------------------------------------------------------------
  // One line, and the whole listing
  // ---------------------------------------------------------------------

  /** The buffer keys. */
  const CoordKeys: set<string> := {"x0", "y0", "x1", "y1"}

  /** What the loop sees in a line once it is stripped: an assignment
      (the x pattern is tried before the y pattern), an AddSegment line with
      the tag its `(lt…,` search found, or nothing. */
  datatype Token = AssignTok(key: string, expr: string) | AddSegmentTok(tag: Option<string>) | OtherTok

  function Lex(line: string): (t: Token)
    ensures t.AssignTok? ==> t.key in CoordKeys && |t.expr| > 0
  {
    var s := Strip(line);
    match MatchAssign(s, 'x')
    case Some((d, e)) => AssignTok(['x', d], e)
    case None =>
      match MatchAssign(s, 'y')
      case Some((d, e)) => AssignTok(['y', d], e)
      case None => if Contains(s, "AddSegment") then AddSegmentTok(KindTag(s)) else OtherTok
  }

  /** A stripped line is an AddSegment line exactly when neither
      assignment pattern matches it and it contains `AddSegment`; its tag is
      then the first `(lt…,` of the stripped line. An x assignment wins over
      a y assignment, and both over AddSegment. */
  lemma LexClassifiesLine(line: string)
    ensures Lex(line).AddSegmentTok? <==>
      MatchAssign(Strip(line), 'x').None? && MatchAssign(Strip(line), 'y').None? &&
      Contains(Strip(line), "AddSegment")
    ensures Lex(line).AddSegmentTok? ==> Lex(line).tag == KindTag(Strip(line))
    ensures MatchAssign(Strip(line), 'x').Some? ==>
      Lex(line) == AssignTok(['x', MatchAssign(Strip(line), 'x').value.0], MatchAssign(Strip(line), 'x').value.1)
    ensures MatchAssign(Strip(line), 'x').None? && MatchAssign(Strip(line), 'y').Some? ==>
      Lex(line) == AssignTok(['y', MatchAssign(Strip(line), 'y').value.0], MatchAssign(Strip(line), 'y').value.1)
  {
  }

  /** No line is both an x and a y assignment, so the order of the two
      patterns only matters against the AddSegment test. */
  lemma AssignmentPatternsExclusive(s: string)
    ensures !(MatchAssign(s, 'x').Some? && MatchAssign(s, 'y').Some?)
  {
  }

  /** A tuple of the generated template, still as expression texts. */
  datatype RawSegment = RawSegment(kind: string, x0: string, y0: string, x1: string, y1: string)

  /** What stops the script: no `(lt…,` token on an AddSegment line
      (AttributeError on None), a tag missing from `kind_map` or a
      coordinate missing from the buffer (both KeyError). */
  datatype ListingError = NoKindTag | UnknownKind(tag: string) | MissingCoordinate(key: string)

  /** The loop state: the buffer `buf` and the output list `segs`. */
  datatype State = State(buf: map<string, string>, segs: seq<RawSegment>)

  /** The tuple an AddSegment line emits from the buffer; the coordinates
      are read in the order x0, y0, x1, y1, and the first one missing is the
      error. */
  function Emitted(kind: string, buf: map<string, string>): (r: Result<RawSegment, ListingError>)
    ensures r.Ok? <==> CoordKeys <= buf.Keys
    ensures r.Ok? ==> r.value == RawSegment(kind, buf["x0"], buf["y0"], buf["x1"], buf["y1"])
    ensures r.Err? ==> r.error.MissingCoordinate? && r.error.key in CoordKeys && r.error.key !in buf
  {
    if "x0" !in buf then Err(MissingCoordinate("x0"))
    else if "y0" !in buf then Err(MissingCoordinate("y0"))
    else if "x1" !in buf then Err(MissingCoordinate("x1"))
    else if "y1" !in buf then Err(MissingCoordinate("y1"))
    else Ok(RawSegment(kind, buf["x0"], buf["y0"], buf["x1"], buf["y1"]))
  }

  /** The tuple an AddSegment line with search result `tag` emits: the tag
      must be found, be a key of `kind_map`, and all four coordinates must be
      buffered. */
  function SegmentFor(tag: Option<string>, buf: map<string, string>): (r: Result<RawSegment, ListingError>)
    ensures r.Ok? <==> tag.Some? && KindOf(tag.value).Some? && CoordKeys <= buf.Keys
    ensures r.Ok? ==> r.value == RawSegment(KindOf(tag.value).value, buf["x0"], buf["y0"], buf["x1"], buf["y1"])
    ensures tag.None? ==> r == Err(NoKindTag)
    ensures tag.Some? && KindOf(tag.value).None? ==> r == Err(UnknownKind(tag.value))
  {
    match tag
    case None => Err(NoKindTag)
    case Some(t) =>
      match KindOf(t)
      case None => Err(UnknownKind(t))
      case Some(kind) => Emitted(kind, buf)
  }

  /** One iteration of the loop. An assignment overwrites its key and
      emits nothing; a line matching no pattern changes nothing; an
      AddSegment line appends exactly one tuple and leaves the buffer empty,
      or fails. */
  function Step(st: State, tok: Token): (r: Result<State, ListingError>)
    ensures tok.OtherTok? ==> r == Ok(st)
    ensures tok.AssignTok? ==> r == Ok(State(st.buf[tok.key := tok.expr], st.segs))
    ensures tok.AddSegmentTok? && r.Ok? ==>
      r.value.buf == map[] && |r.value.segs| == |st.segs| + 1 && r.value.segs[..|st.segs|] == st.segs
  {
    match tok
    case AssignTok(key, e) => Ok(State(st.buf[key := e], st.segs))
    case OtherTok => Ok(st)
    case AddSegmentTok(tag) =>
      var seg :- SegmentFor(tag, st.buf);
      assert (st.segs + [seg])[..|st.segs|] == st.segs;
      Ok(State(map[], st.segs + [seg]))
  }

  /** The state after a sequence of lexed lines. */
  function Run(toks: seq<Token>): (r: Result<State, ListingError>)
    ensures r.Ok? ==> |r.value.segs| <= |toks|
    decreases |toks|
  {
    if toks == [] then Ok(State(map[], []))
    else
      var st :- Run(toks[..|toks| - 1]);
      Step(st, toks[|toks| - 1])
  }

  /** The tokens of the lines, in order. */
  function Lexed(lines: seq<string>): (toks: seq<Token>)
    ensures |toks| == |lines|
    decreases |lines|
  {
    if lines == [] then [] else Lexed(lines[..|lines| - 1]) + [Lex(lines[|lines| - 1])]
  }

  /** The list the script writes out. */
  function Parse(lines: seq<string>): (r: Result<seq<RawSegment>, ListingError>)
    ensures r.Ok? ==> |r.value| <= |lines|
  {
    var st :- Run(Lexed(lines));
    Ok(st.segs)
  }

  lemma RunSnoc(toks: seq<Token>, t: Token)
    ensures Run(toks + [t]) == match Run(toks) case Err(e) => Err(e) case Ok(st) => Step(st, t)
  {
    assert (toks + [t])[..|toks|] == toks;
  }

  /** Appending a line to the listing appends its token. */
  lemma LexedSnoc(lines: seq<string>, l: string)
    ensures Lexed(lines + [l]) == Lexed(lines) + [Lex(l)]
  {
    assert (lines + [l])[..|lines|] == lines;
  }

  /** The token of line i is the lexing of line i. */
  lemma {:induction false} LexedEntrywise(lines: seq<string>)
    ensures forall i :: 0 <= i < |lines| ==> Lexed(lines)[i] == Lex(lines[i])
    decreases |lines|
  {
    if lines != [] {
      var init := lines[..|lines| - 1];
      var last := lines[|lines| - 1];
      LexedEntrywise(init);
      assert Lexed(lines) == Lexed(init) + [Lex(last)];
      forall i | 0 <= i < |lines|
        ensures Lexed(lines)[i] == Lex(lines[i])
      {
        if i < |init| {
          assert lines[i] == init[i] && Lexed(init)[i] == Lex(init[i]);
        }
      }
    }
  }

  /** The tokens of a prefix of the lines are a prefix of the tokens. */
  lemma {:induction false} LexedPrefix(lines: seq<string>, i: nat)
    requires i <= |lines|
    ensures Lexed(lines[..i]) == Lexed(lines)[..i]
    decreases |lines|
  {
    if i < |lines| {
      var init := lines[..|lines| - 1];
      assert lines[..i] == init[..i];
      LexedPrefix(init, i);
    } else {
      assert lines[..i] == lines;
    }
  }

  lemma {:induction false} RunErrorPersists(toks: seq<Token>, i: nat)
    requires i <= |toks| && Run(toks[..i]).Err?
    ensures Run(toks) == Run(toks[..i])
    decreases |toks| - i
  {
    if i < |toks| {
      assert toks[..i + 1] == toks[..i] + [toks[i]];
      RunSnoc(toks[..i], toks[i]);
      RunErrorPersists(toks, i + 1);
    } else {
      assert toks[..i] == toks;
    }
  }

  /** Once a line has failed, the lines after it are never looked at. */
  lemma ParseErrorPersists(lines: seq<string>, i: nat)
    requires i <= |lines| && Run(Lexed(lines[..i])).Err?
    ensures Run(Lexed(lines)) == Run(Lexed(lines[..i]))
  {
    LexedPrefix(lines, i);
    RunErrorPersists(Lexed(lines), i);
  }

  /** One more line is one more step of the loop. */
  lemma ParseSnoc(lines: seq<string>, i: nat, st: State)
    requires i < |lines| && Run(Lexed(lines[..i])) == Ok(st)
    ensures Run(Lexed(lines[..i + 1])) == Step(st, Lex(lines[i]))
  {
    assert lines[..i + 1] == lines[..i] + [lines[i]];
    LexedSnoc(lines[..i], lines[i]);
    RunSnoc(Lexed(lines[..i]), Lex(lines[i]));
  }

  /** The script's loop over the listing's lines. */
  method ParseListing(lines: seq<string>) returns (r: Result<seq<RawSegment>, ListingError>)
    ensures r == Parse(lines)
  {
    var buf: map<string, string> := map[];
    var segs: seq<RawSegment> := [];
    var i := 0;
    while i < |lines|
      invariant 0 <= i <= |lines|
      invariant Run(Lexed(lines[..i])) == Ok(State(buf, segs))
    {
      var tok := Lex(lines[i]);
      ParseSnoc(lines, i, State(buf, segs));
      match tok {
        case AssignTok(key, e) =>
          buf := buf[key := e];
        case OtherTok =>
        case AddSegmentTok(tag) =>
          var seg := SegmentFor(tag, buf);
          if seg.Err? {
            ParseErrorPersists(lines, i + 1);
            return Err(seg.error);
          }
          segs := segs + [seg.value];
          buf := map[];
      }
      i := i + 1;
    }
    assert lines[..i] == lines;
    return Ok(segs);
  }

  // ---------------------------------------------------------------------
  // Properties of the conversion, over the lexed lines
  // ---------------------------------------------------------------------

  /** The number of AddSegment lines. */
  function CountEmits(toks: seq<Token>): nat
    decreases |toks|
  {
    if toks == [] then 0
    else CountEmits(toks[..|toks| - 1]) + (if toks[|toks| - 1].AddSegmentTok? then 1 else 0)
  }

  /** The latest assignment to `key` since the last AddSegment line, read
      backwards from the end. */
  function Latest(toks: seq<Token>, key: string): Option<string>
    decreases |toks|
  {
    if toks == [] then None
    else
      match toks[|toks| - 1]
      case AssignTok(k, e) => if k == key then Some(e) else Latest(toks[..|toks| - 1], key)
      case AddSegmentTok(_) => None
      case OtherTok => Latest(toks[..|toks| - 1], key)
  }

  /** Every AddSegment line emits exactly one tuple, and the tuples of the
      first j lines are the first tuples of the output: tuples come out in
      the order of their lines. */
  lemma {:induction false} EmitsOnePerLineInOrder(toks: seq<Token>, j: nat)
    requires Run(toks).Ok? && j <= |toks|
    ensures |Run(toks).value.segs| == CountEmits(toks)
    ensures Run(toks[..j]).Ok? && CountEmits(toks[..j]) <= CountEmits(toks)
    ensures Run(toks[..j]).value.segs == Run(toks).value.segs[..CountEmits(toks[..j])]
    decreases |toks|
  {
    if toks == [] {
      assert toks[..j] == toks;
    } else {
      var init, t := toks[..|toks| - 1], toks[|toks| - 1];
      assert toks == init + [t];
      RunSnoc(init, t);
      if j == |toks| {
        assert toks[..j] == toks;
        EmitsOnePerLineInOrder(init, 0);
      } else {
        assert toks[..j] == init[..j];
        EmitsOnePerLineInOrder(init, j);
      }
    }
  }

  /** Every assignment token names one of the four buffer keys. */
  predicate AssignsCoords(toks: seq<Token>) {
    forall i :: 0 <= i < |toks| && toks[i].AssignTok? ==> toks[i].key in CoordKeys
  }

  /** The lexer only produces assignments to the four buffer keys. */
  lemma {:induction false} LexedAssignsCoords(lines: seq<string>)
    ensures AssignsCoords(Lexed(lines))
    decreases |lines|
  {
    if lines != [] {
      LexedAssignsCoords(lines[..|lines| - 1]);
    }
  }

  /** After the lines, the buffer holds exactly the coordinate keys assigned
      since the last AddSegment line, each with its latest expression. */
  lemma {:induction false} BufferHoldsLatestAssignments(toks: seq<Token>)
    requires AssignsCoords(toks)
    requires Run(toks).Ok?
    ensures Run(toks).value.buf.Keys <= CoordKeys
    ensures forall key :: key in Run(toks).value.buf <==> Latest(toks, key).Some?
    ensures forall key :: key in Run(toks).value.buf ==> Run(toks).value.buf[key] == Latest(toks, key).value
    decreases |toks|
  {
    if toks != [] {
      var init, t := toks[..|toks| - 1], toks[|toks| - 1];
      assert toks == init + [t];
      RunSnoc(init, t);
      BufferHoldsLatestAssignments(init);
    }
  }

  /** An AddSegment line succeeds exactly when its tag is `ltCut` or
      `ltFold` and all four coordinates were assigned since the previous
      AddSegment line; it then appends the tuple of their latest
      expressions with the mapped kind, and empties the buffer. */
  lemma AddSegmentUsesLatestAssignments(toks: seq<Token>, tag: Option<string>)
    requires AssignsCoords(toks) && Run(toks).Ok?
    ensures Run(toks + [AddSegmentTok(tag)]).Ok? <==>
      tag.Some? && KindOf(tag.value).Some? &&
      forall key :: key in CoordKeys ==> Latest(toks, key).Some?
    ensures Run(toks + [AddSegmentTok(tag)]).Ok? ==>
      Run(toks + [AddSegmentTok(tag)]).value == State(map[], Run(toks).value.segs + [RawSegment(
        KindOf(tag.value).value,
        Latest(toks, "x0").value, Latest(toks, "y0").value,
        Latest(toks, "x1").value, Latest(toks, "y1").value)])
  {
    RunSnoc(toks, AddSegmentTok(tag));
    BufferHoldsLatestAssignments(toks);
  }

  /** A line matching none of the three patterns changes nothing. */
  lemma UnmatchedLineChangesNothing(lines: seq<string>, l: string)
    requires Lex(l).OtherTok?
    ensures Parse(lines + [l]) == Parse(lines)
  {
    LexedSnoc(lines, l);
    RunSnoc(Lexed(lines), Lex(l));
  }
}
