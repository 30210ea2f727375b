/**
 * The content planner (app/services/planner.py): reading a niche and an
 * audience out of free text, filling the post templates, and laying out the
 * seven-day plan.
 */
module Planner {
  import opened Wrappers
  import opened Text

  // ---------------------------------------------------------------------------
  // parse_user_input: the two regular-expression searches
  // ---------------------------------------------------------------------------

  /**
   * A search pattern of the shape `MARKER[:\s]+([^STOP]+)`. Each marker letter
   * comes with its other case, since the search is case-insensitive.
   */
  datatype Pattern = Pattern(marker: seq<(char, char)>, stop: char)

  /** `ниша[:\s]+([^,]+)`: the niche runs up to the next comma. */
  const NichePattern: Pattern := Pattern([('н', 'Н'), ('и', 'И'), ('ш', 'Ш'), ('а', 'А')], ',')

  /** `ЦА[:\s]+(.+)`: `.` is any character but a newline, so the audience runs to the end of the line. */
  const AudiencePattern: Pattern := Pattern([('Ц', 'ц'), ('А', 'а')], '\n')

  const DefaultAudience: string := "широкая аудитория"

  /** The class `[:\s]`. */
  predicate IsSeparator(c: char) {
    c == ':' || IsSpace(c)
  }

  predicate MarkerAt(t: string, p: int, marker: seq<(char, char)>) {
    && 0 <= p
    && p + |marker| <= |t|
    && forall k | 0 <= k < |marker| :: t[p + k] == marker[k].0 || t[p + k] == marker[k].1
  }

  /**
   * The regular expression matches `t[at..end]`, its group being `t[start..end]`:
   * the marker at `at`, one or more separators up to `start`, then one or more
   * characters other than the stop character.
   */
  ghost predicate IsMatch(t: string, pat: Pattern, at: int, start: int, end: int) {
    && MarkerAt(t, at, pat.marker)
    && at + |pat.marker| < start < end <= |t|
    && (forall k | at + |pat.marker| <= k < start :: IsSeparator(t[k]))
    && (forall k | start <= k < end :: t[k] != pat.stop)
  }

  /**
   * The match `re.search` reports: the leftmost one, and at that position the
   * one the greedy `+`s prefer, the longest separator run and then the longest
   * group.
   */
  ghost predicate IsFirstGreedyMatch(t: string, pat: Pattern, at: int, start: int, end: int) {
    && IsMatch(t, pat, at, start, end)
    && (forall a, s, e :: IsMatch(t, pat, a, s, e) ==> at <= a)
    && (forall s, e :: IsMatch(t, pat, at, s, e) ==> s < start || (s == start && e <= end))
  }

  /** A successful search: where the match begins and where its group lies. */
  datatype Match = Match(at: nat, start: nat, end: nat)

  /** How many separators follow index `i`. */
  function SeparatorRun(t: string, i: nat): (n: nat)
    requires i <= |t|
    ensures i + n <= |t|
    decreases |t| - i
  {
    if i < |t| && IsSeparator(t[i]) then 1 + SeparatorRun(t, i + 1) else 0
  }

  /** The run is made of separators and is followed by none. */
  lemma {:induction false} SeparatorRunSpec(t: string, i: nat)
    requires i <= |t|
    ensures var n := SeparatorRun(t, i);
      && (forall k | i <= k < i + n :: IsSeparator(t[k]))
      && (i + n < |t| ==> !IsSeparator(t[i + n]))
    decreases |t| - i
  {
    if i < |t| && IsSeparator(t[i]) {
      SeparatorRunSpec(t, i + 1);
    }
  }

  /** The end of the run of non-stop characters that starts at `i`. */
  function RunEnd(t: string, i: nat, stop: char): (e: nat)
    requires i <= |t|
    ensures i <= e <= |t|
    decreases |t| - i
  {
    if i < |t| && t[i] != stop then RunEnd(t, i + 1, stop) else i
  }

  /** The run holds no stop character and ends at one or at the end of the text. */
  lemma {:induction false} RunEndSpec(t: string, i: nat, stop: char)
    requires i <= |t|
    ensures var e := RunEnd(t, i, stop);
      && (forall k | i <= k < e :: t[k] != stop)
      && (e < |t| ==> t[e] == stop)
    decreases |t| - i
  {
    if i < |t| && t[i] != stop {
      RunEndSpec(t, i + 1, stop);
    }
  }

  /**
   * Backtracking of `[:\s]+` over a run of `n` separators after `q`: the
   * longest length `j <= n` after which the group can begin.
   */
  function GroupOffset(t: string, q: nat, n: nat, stop: char): (r: Option<nat>)
    requires q + n <= |t|
    ensures r.Some? ==> 1 <= r.value <= n
    decreases n
  {
    if n == 0 then None
    else if q + n < |t| && t[q + n] != stop then Some(n)
    else GroupOffset(t, q, n - 1, stop)
  }

  /** The group can begin after the chosen length, and after no longer one. */
  lemma {:induction false} GroupOffsetSpec(t: string, q: nat, n: nat, stop: char)
    requires q + n <= |t|
    ensures var r := GroupOffset(t, q, n, stop);
      && (r.Some? ==> q + r.value < |t| && t[q + r.value] != stop)
      && (forall i | q + (if r.Some? then r.value else 0) < i <= q + n && i < |t| :: t[i] == stop)
    decreases n
  {
    if n > 0 && !(q + n < |t| && t[q + n] != stop) {
      GroupOffsetSpec(t, q, n - 1, stop);
    }
  }

  /** The pattern anchored at `p`. */
  function MatchAt(t: string, pat: Pattern, p: nat): (r: Option<Match>)
    requires p <= |t|
    ensures r.Some? ==> r.value.at == p && r.value.start <= r.value.end <= |t|
  {
    if !MarkerAt(t, p, pat.marker) then None
    else
      var q := p + |pat.marker|;
      match GroupOffset(t, q, SeparatorRun(t, q), pat.stop)
      case None => None
      case Some(j) => Some(Match(p, q + j, RunEnd(t, q + j, pat.stop)))
  }

  /** `re.search` from position `p` on: the first position at which the pattern matches. */
  function SearchFrom(t: string, pat: Pattern, p: nat): (r: Option<Match>)
    requires p <= |t|
    ensures r.Some? ==> r.value.start <= r.value.end <= |t|
    decreases |t| - p
  {
    var m := MatchAt(t, pat, p);
    if m.Some? then m
    else if p == |t| then None
    else SearchFrom(t, pat, p + 1)
  }

  /** The search stops at the first position where the pattern matches, and finds nothing only if there is none. */
  lemma {:induction false} SearchFromSpec(t: string, pat: Pattern, p: nat)
    requires p <= |t|
    ensures var r := SearchFrom(t, pat, p);
      r.Some? ==> p <= r.value.at <= |t| && MatchAt(t, pat, r.value.at) == r
    ensures var r := SearchFrom(t, pat, p);
      r.Some? ==> forall a | p <= a < r.value.at :: MatchAt(t, pat, a).None?
    ensures SearchFrom(t, pat, p).None? ==> forall a | p <= a <= |t| :: MatchAt(t, pat, a).None?
    decreases |t| - p
  {
    if MatchAt(t, pat, p).None? && p < |t| {
      SearchFromSpec(t, pat, p + 1);
    }
  }

  function Search(t: string, pat: Pattern): (r: Option<Match>)
    ensures r.Some? ==> r.value.start <= r.value.end <= |t|
  {
    SearchFrom(t, pat, 0)
  }

  /** `m.group(1).strip()`, or the empty string when there is no match. */
  function Capture(t: string, pat: Pattern): string {
    match Search(t, pat)
    case None => ""
    case Some(m) => Strip(t[m.start..m.end])
  }

  /** A plan request: the niche and the target audience. */
  datatype Brief = Brief(niche: string, audience: string)

  /** `parse_user_input`: the audience is never empty, and the niche is empty only for blank text. */
  function ParseUserInput(text: string): (r: Brief)
    ensures r.audience != ""
    ensures r.niche == "" ==> AllSpace(text)
  {
    var niche := Capture(text, NichePattern);
    var audience := Capture(text, AudiencePattern);
    Brief(if niche == "" then Strip(text) else niche,
          if audience == "" then DefaultAudience else audience)
  }

  // --- what the search functions compute

  lemma MatchAtSound(t: string, pat: Pattern, p: nat)
    requires p <= |t| && MatchAt(t, pat, p).Some?
    ensures var m := MatchAt(t, pat, p).value; IsMatch(t, pat, p, m.start, m.end)
  {
    var q := p + |pat.marker|;
    SeparatorRunSpec(t, q);
    var n := SeparatorRun(t, q);
    GroupOffsetSpec(t, q, n, pat.stop);
    var j := GroupOffset(t, q, n, pat.stop).value;
    RunEndSpec(t, q + j, pat.stop);
  }

  lemma MatchAtGreedy(t: string, pat: Pattern, p: nat, s: int, e: int)
    requires p <= |t| && IsMatch(t, pat, p, s, e)
    ensures MatchAt(t, pat, p).Some?
    ensures var m := MatchAt(t, pat, p).value; s < m.start || (s == m.start && e <= m.end)
  {
    var q := p + |pat.marker|;
    SeparatorRunSpec(t, q);
    var n := SeparatorRun(t, q);
    var j := s - q;
    assert j <= n;
    assert t[q + j] != pat.stop;
    GroupOffsetSpec(t, q, n, pat.stop);
    var r := GroupOffset(t, q, n, pat.stop);
    if r.Some? && r.value == j {
      RunEndSpec(t, s, pat.stop);
      var end := RunEnd(t, s, pat.stop);
      assert e <= end;
    }
  }

  /**
   * `Search` is `re.search`: it finds nothing exactly when the pattern matches
   * nowhere, and otherwise it reports the leftmost, greedy match.
   */
  lemma SearchMeaning(t: string, pat: Pattern)
    ensures Search(t, pat).None? <==> forall a, s, e :: !IsMatch(t, pat, a, s, e)
    ensures Search(t, pat).Some? ==>
      var m := Search(t, pat).value; IsFirstGreedyMatch(t, pat, m.at, m.start, m.end)
  {
    SearchFromSpec(t, pat, 0);
    var r := Search(t, pat);
    forall a, s, e | IsMatch(t, pat, a, s, e)
      ensures r.Some? && r.value.at <= a
    {
      MatchAtGreedy(t, pat, a, s, e);
    }
    if r.Some? {
      var m := r.value;
      MatchAtSound(t, pat, m.at);
      forall s, e | IsMatch(t, pat, m.at, s, e)
        ensures s < m.start || (s == m.start && e <= m.end)
      {
        MatchAtGreedy(t, pat, m.at, s, e);
      }
    }
  }

  /** There is at most one leftmost greedy match. */
  lemma FirstGreedyMatchUnique(t: string, pat: Pattern, a: int, s: int, e: int, a': int, s': int, e': int)
    requires IsFirstGreedyMatch(t, pat, a, s, e) && IsFirstGreedyMatch(t, pat, a', s', e')
    ensures a == a' && s == s' && e == e'
  {
  }

  /**
   * The captured text is the stripped group of the leftmost greedy match, and
   * empty when the pattern matches nowhere.
   */
  lemma CaptureMeaning(t: string, pat: Pattern, a: int, s: int, e: int)
    ensures (forall a', s', e' :: !IsMatch(t, pat, a', s', e')) ==> Capture(t, pat) == ""
    ensures IsFirstGreedyMatch(t, pat, a, s, e) ==> Capture(t, pat) == Strip(t[s..e])
  {
    SearchMeaning(t, pat);
    if IsFirstGreedyMatch(t, pat, a, s, e) {
      var m := Search(t, pat).value;
      FirstGreedyMatchUnique(t, pat, a, s, e, m.at, m.start, m.end);
    }
  }

  /**
   * `parse_user_input`: the niche is the stripped group of the first niche
   * match, and the whole stripped text when there is none or it strips to
   * nothing; the audience is the stripped group of the first audience match,
   * and "широкая аудитория" when there is none or it strips to nothing.
   */
  lemma ParseUserInputMeaning(text: string, a: int, s: int, e: int, a': int, s': int, e': int)
    ensures (forall x, y, z :: !IsMatch(text, NichePattern, x, y, z)) ==>
      ParseUserInput(text).niche == Strip(text)
    ensures IsFirstGreedyMatch(text, NichePattern, a, s, e) ==>
      ParseUserInput(text).niche == (if Strip(text[s..e]) != "" then Strip(text[s..e]) else Strip(text))
    ensures (forall x, y, z :: !IsMatch(text, AudiencePattern, x, y, z)) ==>
      ParseUserInput(text).audience == DefaultAudience
    ensures IsFirstGreedyMatch(text, AudiencePattern, a', s', e') ==>
      ParseUserInput(text).audience == (if Strip(text[s'..e']) != "" then Strip(text[s'..e']) else DefaultAudience)
  {
    CaptureMeaning(text, NichePattern, a, s, e);
    CaptureMeaning(text, AudiencePattern, a', s', e');
  }

  // --- tools for computing a search on strings of a known shape

  lemma SeparatorRunIs(t: string, i: nat, n: nat)
    requires i + n <= |t|
    requires forall k | i <= k < i + n :: IsSeparator(t[k])
    requires i + n < |t| ==> !IsSeparator(t[i + n])
    ensures SeparatorRun(t, i) == n
  {
    SeparatorRunSpec(t, i);
  }

  lemma RunEndIs(t: string, i: nat, e: nat, stop: char)
    requires i <= e <= |t|
    requires forall k | i <= k < e :: t[k] != stop
    requires e < |t| ==> t[e] == stop
    ensures RunEnd(t, i, stop) == e
  {
    RunEndSpec(t, i, stop);
  }

  /** A marker followed by `n >= 1` separators and a character that can start the group. */
  lemma MatchAtKnown(t: string, pat: Pattern, p: nat, n: nat)
    requires MarkerAt(t, p, pat.marker)
    requires var q := p + |pat.marker|;
      && 1 <= n && q + n < |t|
      && (forall k | q <= k < q + n :: IsSeparator(t[k]))
      && !IsSeparator(t[q + n]) && t[q + n] != pat.stop
    ensures var q := p + |pat.marker|;
      MatchAt(t, pat, p) == Some(Match(p, q + n, RunEnd(t, q + n, pat.stop)))
  {
    SeparatorRunIs(t, p + |pat.marker|, n);
  }

  /** Positions holding neither case of the marker's first letter cannot start a match. */
  lemma {:induction false} SearchSkips(t: string, pat: Pattern, p: nat, p': nat)
    requires |pat.marker| >= 1 && p <= p' <= |t|
    requires forall k | p <= k < p' :: t[k] != pat.marker[0].0 && t[k] != pat.marker[0].1
    ensures SearchFrom(t, pat, p) == SearchFrom(t, pat, p')
    decreases p' - p
  {
    if p < p' {
      NoMarkerHere(t, pat, p);
      SearchStep(t, pat, p);
      SearchSkips(t, pat, p + 1, p');
    }
  }

  lemma NoMarkerHere(t: string, pat: Pattern, p: nat)
    requires |pat.marker| >= 1 && p < |t|
    requires t[p] != pat.marker[0].0 && t[p] != pat.marker[0].1
    ensures MatchAt(t, pat, p).None?
  {
  }

  lemma SearchStep(t: string, pat: Pattern, p: nat)
    requires p < |t| && MatchAt(t, pat, p).None?
    ensures SearchFrom(t, pat, p) == SearchFrom(t, pat, p + 1)
  {
  }

  /** A text lacking some letter of the marker (in both cases) has no match at all. */
  lemma NoMarkerLetter(t: string, pat: Pattern, i: nat)
    requires i < |pat.marker|
    requires pat.marker[i].0 !in t && pat.marker[i].1 !in t
    ensures Search(t, pat).None?
  {
    SearchFromSpec(t, pat, 0);
    forall a | 0 <= a <= |t|
      ensures MatchAt(t, pat, a).None?
    {
    }
  }

  predicate NoLetter(s: string, c: (char, char)) {
    c.0 !in s && c.1 !in s
  }

  predicate AllSeparators(s: string) {
    forall i | 0 <= i < |s| :: IsSeparator(s[i])
  }

  /**
   * The capture on a text laid out as `pre + mk + sep + body + post`: no
   * match can start in `pre`, `mk` is the marker, `sep` a run of separators,
   * and the group runs over `body` and stops where `post` begins.
   */
  lemma CaptureOfLayout(pat: Pattern, pre: string, mk: string, sep: string, body: string, post: string)
    requires |pat.marker| >= 1 && NoLetter(pre, pat.marker[0])
    requires |mk| == |pat.marker| && MarkerAt(mk, 0, pat.marker)
    requires sep != "" && AllSeparators(sep)
    requires body != "" && !IsSeparator(body[0]) && pat.stop !in body
    requires post == "" || post[0] == pat.stop
    ensures Capture(pre + mk + sep + body + post, pat) == Strip(body)
  {
    var t := pre + mk + sep + body + post;
    var p, q := |pre|, |pre| + |mk|;
    var s := q + |sep|;
    var e := s + |body|;
    assert t[..p] == pre;
    assert t[p..q] == mk;
    assert t[q..s] == sep;
    assert t[s..e] == body;
    assert e < |t| ==> t[e] == post[0];
    CaptureBySlices(t, pat, p, s, e);
  }

  /** `CaptureKnown`, with the layout given by slices of the text. */
  lemma CaptureBySlices(t: string, pat: Pattern, p: nat, s: nat, e: nat)
    requires |pat.marker| >= 1 && p + |pat.marker| < s < e <= |t|
    requires NoLetter(t[..p], pat.marker[0])
    requires MarkerAt(t[p..p + |pat.marker|], 0, pat.marker)
    requires AllSeparators(t[p + |pat.marker|..s])
    requires !IsSeparator(t[s..e][0]) && pat.stop !in t[s..e]
    requires e < |t| ==> t[e] == pat.stop
    ensures Capture(t, pat) == Strip(t[s..e])
  {
    var q := p + |pat.marker|;
    assert forall k | 0 <= k < p :: t[k] != pat.marker[0].0 && t[k] != pat.marker[0].1 by {
      forall k | 0 <= k < p ensures t[k] != pat.marker[0].0 && t[k] != pat.marker[0].1 {
        assert t[k] == t[..p][k];
      }
    }
    assert MarkerAt(t, p, pat.marker) by {
      forall k | 0 <= k < |pat.marker| ensures t[p + k] == pat.marker[k].0 || t[p + k] == pat.marker[k].1 {
        assert t[p + k] == t[p..q][k];
      }
    }
    assert forall k | q <= k < s :: IsSeparator(t[k]) by {
      forall k | q <= k < s ensures IsSeparator(t[k]) {
        assert t[k] == t[q..s][k - q];
      }
    }
    assert !IsSeparator(t[s]) by {
      assert t[s] == t[s..e][0];
    }
    assert forall k | s <= k < e :: t[k] != pat.stop by {
      forall k | s <= k < e ensures t[k] != pat.stop {
        assert t[k] == t[s..e][k - s];
      }
    }
    CaptureKnown(t, pat, p, s, e);
  }

  /** The capture when the first match is known to be at `p`, with the group from `s` to `e`. */
  lemma CaptureKnown(t: string, pat: Pattern, p: nat, s: nat, e: nat)
    requires |pat.marker| >= 1 && p + |pat.marker| < s < e <= |t|
    requires forall k | 0 <= k < p :: t[k] != pat.marker[0].0 && t[k] != pat.marker[0].1
    requires MarkerAt(t, p, pat.marker)
    requires forall k | p + |pat.marker| <= k < s :: IsSeparator(t[k])
    requires !IsSeparator(t[s])
    requires forall k | s <= k < e :: t[k] != pat.stop
    requires e < |t| ==> t[e] == pat.stop
    ensures Capture(t, pat) == Strip(t[s..e])
  {
    var n := s - (p + |pat.marker|);
    var m := Match(p, s, e);
    assert t[s] != pat.stop;
    MatchAtKnown(t, pat, p, n);
    RunEndIs(t, s, e, pat.stop);
    assert MatchAt(t, pat, p) == Some(m);
    assert SearchFrom(t, pat, p) == Some(m);
    SearchSkips(t, pat, 0, p);
    assert Search(t, pat) == Some(m);
  }

  const NicheMark: string := "ниша"
  const AudienceMark: string := "ЦА"

  lemma MarksMatch()
    ensures |NicheMark| == |NichePattern.marker| && MarkerAt(NicheMark, 0, NichePattern.marker)
    ensures |AudienceMark| == |AudiencePattern.marker| && MarkerAt(AudienceMark, 0, AudiencePattern.marker)
    ensures MarkerAt("ца", 0, AudiencePattern.marker)
  {
  }

  /** The niche group of a text that opens with "ниша", separators, and the group. */
  lemma NicheCapture(sep: string, body: string, post: string)
    requires sep != "" && AllSeparators(sep)
    requires body != "" && !IsSeparator(body[0]) && !IsSpace(body[|body| - 1]) && ',' !in body
    requires post == "" || post[0] == ','
    ensures Capture(NicheMark + sep + body + post, NichePattern) == body
  {
    MarksMatch();
    assert NicheMark + sep + body + post == "" + NicheMark + sep + body + post;
    CaptureOfLayout(NichePattern, "", NicheMark, sep, body, post);
    StripKeeps(body);
  }

  /** The audience group of a text in which no "ц" comes before the marker `mk`. */
  lemma AudienceCapture(pre: string, mk: string, sep: string, body: string, post: string)
    requires NoLetter(pre, AudiencePattern.marker[0])
    requires |mk| == 2 && MarkerAt(mk, 0, AudiencePattern.marker)
    requires sep != "" && AllSeparators(sep)
    requires body != "" && !IsSeparator(body[0]) && !IsSpace(body[|body| - 1]) && '\n' !in body
    requires post == "" || post[0] == '\n'
    ensures Capture(pre + mk + sep + body + post, AudiencePattern) == body
  {
    CaptureOfLayout(AudiencePattern, pre, mk, sep, body, post);
    StripKeeps(body);
  }

  /** Separators are neither commas nor letters. */
  lemma SeparatorsAreNotLetters(sep: string)
    requires AllSeparators(sep)
    ensures ',' !in sep && NoLetter(sep, AudiencePattern.marker[0]) && NoLetter(sep, NichePattern.marker[2])
  {
  }

  /** The form the bot's own help text suggests, "ниша: X, ЦА: Y". */
  function MarkedInput(sep1: string, niche: string, sep2: string, audience: string): string {
    "ниша" + sep1 + niche + ", " + "ЦА" + sep2 + audience
  }

  /** The conditions under which `MarkedInput` reads back as its parts. */
  predicate PlainParts(sep1: string, niche: string, sep2: string, audience: string) {
    && sep1 != "" && AllSeparators(sep1) && sep2 != "" && AllSeparators(sep2)
    && niche != "" && ',' !in niche && NoLetter(niche, AudiencePattern.marker[0])
    && !IsSeparator(niche[0]) && !IsSpace(niche[|niche| - 1])
    && audience != "" && '\n' !in audience
    && !IsSeparator(audience[0]) && !IsSpace(audience[|audience| - 1])
  }

  lemma MarkedNiche(sep1: string, niche: string, sep2: string, audience: string)
    requires PlainParts(sep1, niche, sep2, audience)
    ensures Capture(MarkedInput(sep1, niche, sep2, audience), NichePattern) == niche
  {
    assert MarkedInput(sep1, niche, sep2, audience) == NicheMark + sep1 + niche + (", " + "ЦА" + sep2 + audience);
    NicheCapture(sep1, niche, ", " + "ЦА" + sep2 + audience);
  }

  lemma MarkedAudience(sep1: string, niche: string, sep2: string, audience: string)
    requires PlainParts(sep1, niche, sep2, audience)
    ensures Capture(MarkedInput(sep1, niche, sep2, audience), AudiencePattern) == audience
  {
    var pre := "ниша" + sep1 + niche + ", ";
    SeparatorsAreNotLetters(sep1);
    assert NoLetter(pre, AudiencePattern.marker[0]);
    MarksMatch();
    assert MarkedInput(sep1, niche, sep2, audience) == pre + AudienceMark + sep2 + audience + "";
    AudienceCapture(pre, AudienceMark, sep2, audience, "");
  }

  /**
   * "ниша" + X + ", ЦА" + Y, each of the two separators a run of colons and
   * whitespace, reads back as (X, Y) whenever X holds no comma and no "ц",
   * Y no line break, and neither begins with a separator or ends with
   * whitespace.
   */
  lemma ParseMarkedInput(sep1: string, niche: string, sep2: string, audience: string)
    requires PlainParts(sep1, niche, sep2, audience)
    ensures ParseUserInput(MarkedInput(sep1, niche, sep2, audience)) == Brief(niche, audience)
  {
    MarkedNiche(sep1, niche, sep2, audience);
    MarkedAudience(sep1, niche, sep2, audience);
  }

  /** "ниша" + X alone. */
  function NicheOnlyInput(sep: string, niche: string): string {
    "ниша" + sep + niche
  }

  lemma NicheOnlyNiche(sep: string, niche: string)
    requires sep != "" && AllSeparators(sep)
    requires niche != "" && ',' !in niche && !IsSeparator(niche[0]) && !IsSpace(niche[|niche| - 1])
    ensures Capture(NicheOnlyInput(sep, niche), NichePattern) == niche
  {
    assert NicheOnlyInput(sep, niche) == NicheMark + sep + niche + "";
    NicheCapture(sep, niche, "");
  }

  lemma NicheOnlyAudience(sep: string, niche: string)
    requires AllSeparators(sep) && NoLetter(niche, AudiencePattern.marker[0])
    ensures Search(NicheOnlyInput(sep, niche), AudiencePattern).None?
  {
    SeparatorsAreNotLetters(sep);
    assert NoLetter(NicheOnlyInput(sep, niche), AudiencePattern.marker[0]);
    NoMarkerLetter(NicheOnlyInput(sep, niche), AudiencePattern, 0);
  }

  /** "ниша: X" alone reads back as X with the default audience. */
  lemma ParseNicheOnly(sep: string, niche: string)
    requires sep != "" && AllSeparators(sep)
    requires niche != "" && ',' !in niche && NoLetter(niche, AudiencePattern.marker[0])
    requires !IsSeparator(niche[0]) && !IsSpace(niche[|niche| - 1])
    ensures ParseUserInput(NicheOnlyInput(sep, niche)) == Brief(niche, DefaultAudience)
  {
    NicheOnlyNiche(sep, niche);
    NicheOnlyAudience(sep, niche);
  }

  /** Text with no "ш" and no "ц" in it is taken whole, stripped, as the niche. */
  lemma ParsePlainText(text: string)
    requires NoLetter(text, NichePattern.marker[2]) && NoLetter(text, AudiencePattern.marker[0])
    ensures ParseUserInput(text) == Brief(Strip(text), DefaultAudience)
  {
    NoMarkerLetter(text, NichePattern, 2);
    NoMarkerLetter(text, AudiencePattern, 0);
  }

  /** "ниша" + X + " ЦА" + Y: the two parts without a comma between them. */
  function UnseparatedInput(sep1: string, niche: string, sep2: string, audience: string): string {
    "ниша" + sep1 + niche + " " + "ЦА" + sep2 + audience
  }

  predicate CommaFreeParts(sep1: string, niche: string, sep2: string, audience: string) {
    && sep1 != "" && AllSeparators(sep1) && sep2 != "" && AllSeparators(sep2)
    && niche != "" && ',' !in niche && NoLetter(niche, AudiencePattern.marker[0]) && !IsSeparator(niche[0])
    && audience != "" && ',' !in audience && '\n' !in audience
    && !IsSeparator(audience[0]) && !IsSpace(audience[|audience| - 1])
  }

  lemma UnseparatedNiche(sep1: string, niche: string, sep2: string, audience: string)
    requires CommaFreeParts(sep1, niche, sep2, audience)
    ensures Capture(UnseparatedInput(sep1, niche, sep2, audience), NichePattern) == niche + " " + "ЦА" + sep2 + audience
  {
    var rest := niche + " " + "ЦА" + sep2 + audience;
    SeparatorsAreNotLetters(sep2);
    assert ',' !in rest;
    assert rest[|rest| - 1] == audience[|audience| - 1];
    assert UnseparatedInput(sep1, niche, sep2, audience) == NicheMark + sep1 + rest + "";
    NicheCapture(sep1, rest, "");
  }

  lemma UnseparatedAudience(sep1: string, niche: string, sep2: string, audience: string)
    requires CommaFreeParts(sep1, niche, sep2, audience)
    ensures Capture(UnseparatedInput(sep1, niche, sep2, audience), AudiencePattern) == audience
  {
    var pre := "ниша" + sep1 + niche + " ";
    SeparatorsAreNotLetters(sep1);
    assert NoLetter(pre, AudiencePattern.marker[0]);
    MarksMatch();
    assert UnseparatedInput(sep1, niche, sep2, audience) == pre + AudienceMark + sep2 + audience + "";
    AudienceCapture(pre, AudienceMark, sep2, audience, "");
  }

  /**
   * Without a comma the niche group runs to the end of the text, so it takes
   * in the "ЦА ..." part as well, while the audience is still read.
   */
  lemma NoCommaNicheTakesAll(sep1: string, niche: string, sep2: string, audience: string)
    requires CommaFreeParts(sep1, niche, sep2, audience)
    ensures ParseUserInput(UnseparatedInput(sep1, niche, sep2, audience))
         == Brief(niche + " " + "ЦА" + sep2 + audience, audience)
  {
    UnseparatedNiche(sep1, niche, sep2, audience);
    UnseparatedAudience(sep1, niche, sep2, audience);
  }

  /** "ниша " + X, a line break, "ЦА " + Y, and a further line. */
  function MultilineInput(niche: string, audience: string, more: string): string {
    "ниша " + niche + "\n" + "ЦА " + audience + "\n" + more
  }

  predicate MultilineParts(niche: string, audience: string, more: string) {
    && niche != "" && ',' !in niche && NoLetter(niche, AudiencePattern.marker[0]) && !IsSeparator(niche[0])
    && audience != "" && ',' !in audience && '\n' !in audience
    && !IsSeparator(audience[0]) && !IsSpace(audience[|audience| - 1])
    && more != "" && ',' !in more && !IsSpace(more[|more| - 1])
  }

  lemma MultilineNiche(niche: string, audience: string, more: string)
    requires MultilineParts(niche, audience, more)
    ensures Capture(MultilineInput(niche, audience, more), NichePattern) == niche + "\n" + "ЦА " + audience + "\n" + more
  {
    var rest := niche + "\n" + "ЦА " + audience + "\n" + more;
    assert AllSeparators(" ");
    assert ',' !in rest;
    assert rest[|rest| - 1] == more[|more| - 1];
    assert MultilineInput(niche, audience, more) == NicheMark + " " + rest + "";
    NicheCapture(" ", rest, "");
  }

  lemma MultilineAudience(niche: string, audience: string, more: string)
    requires MultilineParts(niche, audience, more)
    ensures Capture(MultilineInput(niche, audience, more), AudiencePattern) == audience
  {
    var pre := "ниша " + niche + "\n";
    assert AllSeparators(" ");
    assert NoLetter(pre, AudiencePattern.marker[0]);
    MarksMatch();
    assert MultilineInput(niche, audience, more) == pre + AudienceMark + " " + audience + ("\n" + more);
    AudienceCapture(pre, AudienceMark, " ", audience, "\n" + more);
  }

  /**
   * The niche group crosses line breaks, the audience group stops at the
   * first one.
   */
  lemma LineBreakStopsAudienceOnly(niche: string, audience: string, more: string)
    requires MultilineParts(niche, audience, more)
    ensures ParseUserInput(MultilineInput(niche, audience, more))
         == Brief(niche + "\n" + "ЦА " + audience + "\n" + more, audience)
  {
    MultilineNiche(niche, audience, more);
    MultilineAudience(niche, audience, more);
  }

  /** A word ending in "ца", a space, and more text. */
  function WordInput(word: string, audience: string): string {
    word + "ца" + " " + audience
  }

  predicate WordParts(word: string, audience: string) {
    && NoLetter(word, AudiencePattern.marker[0]) && NoLetter(word, NichePattern.marker[2])
    && audience != "" && '\n' !in audience && NoLetter(audience, NichePattern.marker[2])
    && !IsSeparator(audience[0]) && !IsSpace(audience[|audience| - 1])
  }

  lemma WordNiche(word: string, audience: string)
    requires WordParts(word, audience)
    ensures Search(WordInput(word, audience), NichePattern).None?
  {
    assert NoLetter(WordInput(word, audience), NichePattern.marker[2]);
    NoMarkerLetter(WordInput(word, audience), NichePattern, 2);
  }

  lemma WordAudience(word: string, audience: string)
    requires WordParts(word, audience)
    ensures Capture(WordInput(word, audience), AudiencePattern) == audience
  {
    MarksMatch();
    assert AllSeparators(" ");
    assert WordInput(word, audience) == word + "ца" + " " + audience + "";
    AudienceCapture(word, "ца", " ", audience, "");
  }

  /**
   * The marker is not anchored to a word: the "ца" closing a word such as
   * "улица", followed by a space, starts an audience.
   */
  lemma MarkerInsideWord(word: string, audience: string)
    requires WordParts(word, audience)
    ensures ParseUserInput(WordInput(word, audience)) == Brief(Strip(WordInput(word, audience)), audience)
  {
    WordNiche(word, audience);
    WordAudience(word, audience);
  }

  // The examples of the planner's tests, each taken apart into the pieces of its shape.

  lemma FitnessShape()
    ensures "ниша: фитнес, ЦА: женщины 25-35" == MarkedInput(": ", "фитнес", ": ", "женщины 25-35")
    ensures PlainParts(": ", "фитнес", ": ", "женщины 25-35")
  {
    assert AllSeparators(": ");
  }

  lemma ExampleFitness(text: string)
    requires text == "ниша: фитнес, ЦА: женщины 25-35"
    ensures ParseUserInput(text) == Brief("фитнес", "женщины 25-35")
  {
    FitnessShape();
    ParseMarkedInput(": ", "фитнес", ": ", "женщины 25-35");
  }

  lemma NicheOnlyShape()
    ensures "ниша: программирование" == NicheOnlyInput(": ", "программирование")
    ensures AllSeparators(": ") && NoLetter("программирование", AudiencePattern.marker[0])
  {
  }

  lemma ExampleNicheOnly(text: string)
    requires text == "ниша: программирование"
    ensures ParseUserInput(text) == Brief("программирование", DefaultAudience)
  {
    NicheOnlyShape();
    ParseNicheOnly(": ", "программирование");
  }

  lemma PlainShape()
    ensures NoLetter("кулинария для мам", NichePattern.marker[2])
    ensures NoLetter("кулинария для мам", AudiencePattern.marker[0])
  {
  }

  lemma PlainStripped(text: string)
    requires text == "кулинария для мам"
    ensures Strip(text) == text
  {
    StripKeeps(text);
  }

  lemma ExamplePlain(text: string)
    requires text == "кулинария для мам"
    ensures ParseUserInput(text) == Brief(text, DefaultAudience)
  {
    PlainShape();
    PlainStripped(text);
    ParsePlainText(text);
  }

  lemma SpacesShape()
    ensures "ниша кулинария, ЦА молодёжь" == MarkedInput(" ", "кулинария", " ", "молодёжь")
    ensures PlainParts(" ", "кулинария", " ", "молодёжь")
  {
    assert AllSeparators(" ");
  }

  lemma ExampleSpaces(text: string)
    requires text == "ниша кулинария, ЦА молодёжь"
    ensures ParseUserInput(text) == Brief("кулинария", "молодёжь")
  {
    SpacesShape();
    ParseMarkedInput(" ", "кулинария", " ", "молодёжь");
  }

  lemma StreetShape()
    ensures "улица спорт" == WordInput("ули", "спорт")
    ensures WordParts("ули", "спорт")
    ensures Strip("улица спорт") == "улица спорт"
  {
    StripKeeps("улица спорт");
  }

  lemma ExampleStreet(text: string)
    requires text == "улица спорт"
    ensures ParseUserInput(text) == Brief(text, "спорт")
  {
    StreetShape();
    MarkerInsideWord("ули", "спорт");
  }

  // ---------------------------------------------------------------------------
  // generate_day_content: the post templates
  // ---------------------------------------------------------------------------

  /** The names `str.format` fills: `{niche}`, `{topic}` and `{target_audience}`. */
  datatype Field = NicheField | TopicField | AudienceField

  /** A template, cut at its replacement fields. */
  datatype Piece = Lit(text: string) | Hole(field: Field)

  type Template = seq<Piece>

  datatype Category = Category(name: string, templates: seq<Template>)

  /**
   * `CONTENT_TEMPLATES`, its categories in the dictionary's order. Each
   * post's opening emoji is written apart from the rest of its first text.
   */
  const ContentTemplates: seq<Category> := [Educational, Engaging, Storytelling, Promotional, Entertainment]

  const Educational: Category := Category("educational", [
    [Lit("📚" + " Образовательный пост: «"), Hole(TopicField), Lit("» — объясни основы для новичков")],
    [Lit("💡" + " Лайфхак дня: как сэкономить время/деньги в "), Hole(NicheField)],
    [Lit("❓" + " FAQ: ответы на 5 частых вопросов о "), Hole(TopicField)]
  ])

  const Engaging: Category := Category("engaging", [
    [Lit("🗳" + "\U{FE0F} Опрос: «Какой "), Hole(TopicField), Lit(" вам ближе?» — вовлекаем аудиторию")],
    [Lit("💬" + " Вопрос дня: «Поделись своим опытом в "), Hole(NicheField), Lit("»")],
    [Lit("🎯" + " Челлендж: 7 дней "), Hole(TopicField), Lit(" — присоединяйтесь!")]
  ])

  const Storytelling: Category := Category("storytelling", [
    [Lit("📖" + " История успеха: как клиент достиг результата в "), Hole(NicheField)],
    [Lit("🎭" + " За кулисами: один день из жизни "), Hole(NicheField), Lit("-эксперта")],
    [Lit("🔥" + " Ошибки новичков: 5 провалов в "), Hole(TopicField), Lit(" и как их избежать")]
  ])

  const Promotional: Category := Category("promotional", [
    [Lit("🎁" + " Специальное предложение для "), Hole(AudienceField)],
    [Lit("⭐" + " Отзыв клиента: результаты работы в "), Hole(NicheField)],
    [Lit("🚀" + " Новинка: представляем новый продукт/услугу")]
  ])

  const Entertainment: Category := Category("entertainment", [
    [Lit("😄" + " Мемы и юмор: смешное из мира "), Hole(NicheField)],
    [Lit("🎬" + " Рекомендации: топ-5 ресурсов по "), Hole(TopicField)],
    [Lit("🏆" + " Подборка недели: лучшее в "), Hole(NicheField)]
  ])

  /** Every category offers three templates, and every template opens with text. */
  lemma TemplateTableShape()
    ensures |ContentTemplates| == 5
    ensures forall c | 0 <= c < 5 :: |ContentTemplates[c].templates| == 3
    ensures forall c, i | 0 <= c < 5 && 0 <= i < 3 ::
      var tpl := ContentTemplates[c].templates[i]; tpl != [] && tpl[0].Lit? && tpl[0].text != ""
  {
  }

  /** The value `template.format(niche=niche, topic=niche, target_audience=audience)` puts in a field. */
  function FieldValue(f: Field, niche: string, audience: string): string {
    match f
    case NicheField => niche
    case TopicField => niche
    case AudienceField => audience
  }

  /** `template.format(niche=niche, topic=niche, target_audience=audience)`. */
  function Format(tpl: Template, niche: string, audience: string): string {
    if tpl == [] then ""
    else
      (match tpl[0] case Lit(text) => text case Hole(f) => FieldValue(f, niche, audience))
      + Format(tpl[1..], niche, audience)
  }

  /** Each field's value appears in the formatted text. */
  lemma {:induction false} FormatShowsField(tpl: Template, k: nat, niche: string, audience: string)
    requires k < |tpl| && tpl[k].Hole?
    ensures IsInfix(FieldValue(tpl[k].field, niche, audience), Format(tpl, niche, audience))
  {
    var rest := Format(tpl[1..], niche, audience);
    if k == 0 {
      var v := FieldValue(tpl[0].field, niche, audience);
      InfixOfConcat("", v, rest);
      assert Format(tpl, niche, audience) == "" + v + rest;
    } else {
      var head := match tpl[0] case Lit(text) => text case Hole(f) => FieldValue(f, niche, audience);
      assert tpl[1..][k - 1] == tpl[k];
      FormatShowsField(tpl[1..], k - 1, niche, audience);
      InfixOfConcat(head, rest, "");
      assert Format(tpl, niche, audience) == head + rest + "";
      InfixTransitive(FieldValue(tpl[k].field, niche, audience), rest, Format(tpl, niche, audience));
    }
  }

  /** The formatted text begins with the template's opening text. */
  lemma FormatStartsWithText(tpl: Template, niche: string, audience: string)
    requires tpl != [] && tpl[0].Lit? && tpl[0].text != ""
    ensures Format(tpl, niche, audience) != ""
    ensures Format(tpl, niche, audience)[0] == tpl[0].text[0]
  {
    assert Format(tpl, niche, audience) == tpl[0].text + Format(tpl[1..], niche, audience);
  }

  /** `content_types[day_num % len(content_types)]`; Python's `%` by a positive number is never negative. */
  function DayCategory(dayNum: int): (c: nat)
    ensures c < |ContentTemplates|
  {
    dayNum % |ContentTemplates|
  }

  /**
   * `generate_day_content`: the template `pick` of the day's category, that
   * is the one `random.choice` returns, filled in.
   */
  function DayContent(dayNum: int, pick: nat, niche: string, audience: string): string
    requires pick < 3
  {
    TemplateTableShape();
    Format(ContentTemplates[DayCategory(dayNum)].templates[pick], niche, audience)
  }

  /** The opening emoji of each template, by category and then template. */
  ghost function Lead(c: nat, i: nat): char
    requires c < 5 && i < 3
  {
    TemplateTableShape();
    ContentTemplates[c].templates[i][0].text[0]
  }

  /** Reads a category and a template back from an opening emoji. */
  function LeadOwner(ch: char): Option<(nat, nat)> {
    if ch == '📚' then Some((0, 0)) else if ch == '💡' then Some((0, 1)) else if ch == '❓' then Some((0, 2))
    else if ch == '🗳' then Some((1, 0)) else if ch == '💬' then Some((1, 1)) else if ch == '🎯' then Some((1, 2))
    else if ch == '📖' then Some((2, 0)) else if ch == '🎭' then Some((2, 1)) else if ch == '🔥' then Some((2, 2))
    else if ch == '🎁' then Some((3, 0)) else if ch == '⭐' then Some((3, 1)) else if ch == '🚀' then Some((3, 2))
    else if ch == '😄' then Some((4, 0)) else if ch == '🎬' then Some((4, 1)) else if ch == '🏆' then Some((4, 2))
    else None
  }

  /** No two templates open with the same emoji. */
  lemma LeadsAreDistinct(c: nat, i: nat)
    requires c < 5 && i < 3
    ensures LeadOwner(Lead(c, i)) == Some((c, i))
  {
    TemplateTableShape();
  }

  /**
   * A day's post is never empty, and it tells its category and its template:
   * two posts of the same text come from the same template of the same
   * category, whatever the niche and the audience.
   */
  lemma DayContentIdentifies(d: int, pick: nat, d': int, pick': nat,
                             niche: string, audience: string, niche': string, audience': string)
    requires pick < 3 && pick' < 3
    ensures DayContent(d, pick, niche, audience) != ""
    ensures
      DayContent(d, pick, niche, audience) == DayContent(d', pick', niche', audience') ==>
        DayCategory(d) == DayCategory(d') && pick == pick'
  {
    TemplateTableShape();
    var c, c' := DayCategory(d), DayCategory(d');
    FormatStartsWithText(ContentTemplates[c].templates[pick], niche, audience);
    FormatStartsWithText(ContentTemplates[c'].templates[pick'], niche', audience');
    LeadsAreDistinct(c, pick);
    LeadsAreDistinct(c', pick');
  }

  /** The categories cycle with a period of five days. */
  lemma CategoriesCycle(d: int)
    ensures DayCategory(d + 5) == DayCategory(d)
    ensures DayCategory(d + 1) == (DayCategory(d) + 1) % 5
  {
  }

  /** Two consecutive days never get the same post, whichever templates are drawn. */
  lemma ConsecutiveDaysDiffer(d: int, pick: nat, pick': nat, niche: string, audience: string)
    requires pick < 3 && pick' < 3
    ensures
      DayContent(d, pick, niche, audience) != DayContent(d + 1, pick', niche, audience)
  {
    TemplateTableShape();
    CategoriesCycle(d);
    DayContentIdentifies(d, pick, d + 1, pick', niche, audience, niche, audience);
  }

  /** The niche (or, for one template, the audience) is written into the post. */
  lemma DayContentMentions(d: int, pick: nat, niche: string, audience: string)
    requires pick < 3
    ensures
      var tpl := ContentTemplates[DayCategory(d)].templates[pick];
      forall k | 0 <= k < |tpl| && tpl[k].Hole? ::
        IsInfix(FieldValue(tpl[k].field, niche, audience), DayContent(d, pick, niche, audience))
  {
    TemplateTableShape();
    var tpl := ContentTemplates[DayCategory(d)].templates[pick];
    forall k | 0 <= k < |tpl| && tpl[k].Hole?
      ensures IsInfix(FieldValue(tpl[k].field, niche, audience), Format(tpl, niche, audience))
    {
      FormatShowsField(tpl, k, niche, audience);
    }
  }

  // ---------------------------------------------------------------------------
  // generate_content_plan
  // ---------------------------------------------------------------------------

  /** `WEEKDAYS_RU`, Monday first. */
  const Weekdays: seq<string> := ["Понедельник", "Вторник", "Среда", "Четверг", "Пятница", "Суббота", "Воскресенье"]

  /**
   * `date.weekday()` of the day with proleptic Gregorian ordinal `ordinal`
   * (day 1 is Monday, 1 January of year 1): Monday is 0.
   */
  function WeekdayIndex(ordinal: int): (w: nat)
    ensures w < |Weekdays|
  {
    (ordinal + 6) % 7
  }

  /** `WEEKDAYS_RU[date.weekday()]`. */
  function WeekdayName(ordinal: int): string {
    Weekdays[WeekdayIndex(ordinal)]
  }

  /** Each day is the weekday after the one before. */
  lemma WeekdaysAdvance(ordinal: int)
    ensures WeekdayIndex(ordinal + 1) == (WeekdayIndex(ordinal) + 1) % 7
    ensures WeekdayIndex(ordinal + 7) == WeekdayIndex(ordinal)
  {
  }

  const PlanTitle: string := "Контент-план на 7 дней"
  const TipWord: string := "Совет"

  /** `"─" * 25`. */
  const Rule: string := Repeat('─', 25)

  function HeaderLines(brief: Brief): seq<string> {
    [ "📋 <b>" + PlanTitle + "</b>",
      "🎯 Ниша: <b>" + brief.niche + "</b>",
      "👥 ЦА: <b>" + brief.audience + "</b>",
      "",
      Rule,
      "" ]
  }

  const FooterLines: seq<string> := [
    Rule,
    "",
    "💡 <i>" + TipWord + ": адаптируйте план под свой стиль и актуальные события!</i>",
    "",
    "🔄 Хотите новый план? Просто напишите нишу и ЦА снова."
  ]

  /** `f"<b>День {i+1}</b> • {weekday}, {date_str}"`. */
  function DayHeading(i: nat, weekday: string, date: string): string {
    "<b>День " + NatToString(i + 1) + "</b> • " + weekday + ", " + date
  }

  /** The random draws of one plan: a template index for each of the seven days. */
  predicate ValidPicks(picks: seq<nat>) {
    |picks| == 7 && forall i | 0 <= i < 7 :: picks[i] < 3
  }

  /** The seven posts of a plan: day `i` gets template `picks[i]` of its category, filled in. */
  function DayPosts(brief: Brief, picks: seq<nat>): (posts: seq<string>)
    requires ValidPicks(picks)
    ensures |posts| == 7
  {
    seq(7, i requires 0 <= i < 7 => DayContent(i, picks[i], brief.niche, brief.audience))
  }

  lemma DayPostsAre(brief: Brief, picks: seq<nat>, i: nat)
    requires ValidPicks(picks) && i < 7
    ensures DayPosts(brief, picks)[i] == DayContent(i, picks[i], brief.niche, brief.audience)
  {
  }

  /**
   * The three lines of day `i` with its post, the plan starting on the day
   * with ordinal `start`; `dateLabel` stands for `strftime("%d.%m")`.
   */
  function DayLines(i: nat, start: int, dateLabel: int -> string, post: string): seq<string> {
    [ DayHeading(i, WeekdayName(start + i), dateLabel(start + i)), post, "" ]
  }

  /** The lines of the first `n` days. */
  function DayBlocks(n: nat, start: int, dateLabel: int -> string, posts: seq<string>): seq<string>
    requires n <= |posts|
  {
    if n == 0 then [] else DayBlocks(n - 1, start, dateLabel, posts) + DayLines(n - 1, start, dateLabel, posts[n - 1])
  }

  /** The lines `generate_content_plan` joins, for the brief it parsed and the seven posts. */
  function PlanLines(brief: Brief, start: int, dateLabel: int -> string, posts: seq<string>): seq<string>
    requires |posts| == 7
  {
    HeaderLines(brief) + DayBlocks(7, start, dateLabel, posts) + FooterLines
  }

  /**
   * `generate_content_plan`. `start` is the ordinal of tomorrow (the clock is
   * a parameter), `picks` the seven draws of `random.choice`.
   */
  method GenerateContentPlan(userInput: string, start: int, dateLabel: int -> string, picks: seq<nat>)
    returns (plan: string)
    requires ValidPicks(picks)
    ensures var brief := ParseUserInput(userInput);
      plan == Join(PlanLines(brief, start, dateLabel, DayPosts(brief, picks)), "\n")
  {
    var brief := ParseUserInput(userInput);
    ghost var posts := DayPosts(brief, picks);
    var lines := HeaderLines(brief);
    for i := 0 to 7
      invariant lines == HeaderLines(brief) + DayBlocks(i, start, dateLabel, posts)
    {
      var weekday := WeekdayName(start + i);
      var dateStr := dateLabel(start + i);
      var content := DayContent(i, picks[i], brief.niche, brief.audience);
      DayPostsAre(brief, picks, i);
      ExtendLines(lines, HeaderLines(brief), DayBlocks(i, start, dateLabel, posts),
        DayBlocks(i + 1, start, dateLabel, posts), DayHeading(i, weekday, dateStr), content, "");
      lines := lines + [DayHeading(i, weekday, dateStr)];
      lines := lines + [content];
      lines := lines + [""];
    }
    lines := lines + FooterLines;
    plan := Join(lines, "\n");
  }

  /** Appending a day's three lines one by one extends the day blocks by that day. */
  lemma ExtendLines(lines: seq<string>, header: seq<string>, blocks: seq<string>, next: seq<string>,
                    heading: string, content: string, blank: string)
    requires lines == header + blocks && next == blocks + [heading, content, blank]
    ensures lines + [heading] + [content] + [blank] == header + next
  {
  }

  /** Day `i`'s lines sit at `3 * i` among the day blocks. */
  lemma {:induction false} DayBlocksShape(n: nat, start: int, dateLabel: int -> string, posts: seq<string>)
    requires n <= |posts|
    ensures |DayBlocks(n, start, dateLabel, posts)| == 3 * n
    ensures forall i | 0 <= i < n ::
      DayBlocks(n, start, dateLabel, posts)[3 * i..3 * i + 3] == DayLines(i, start, dateLabel, posts[i])
  {
    if n > 0 {
      DayBlocksShape(n - 1, start, dateLabel, posts);
      var prev := DayBlocks(n - 1, start, dateLabel, posts);
      var day := DayLines(n - 1, start, dateLabel, posts[n - 1]);
      var all := DayBlocks(n, start, dateLabel, posts);
      assert all == prev + day;
      AppendTriple(prev, day, n - 1);
      forall i | 0 <= i < n
        ensures all[3 * i..3 * i + 3] == DayLines(i, start, dateLabel, posts[i])
      {
        if i < n - 1 {
          assert all[3 * i..3 * i + 3] == prev[3 * i..3 * i + 3];
          assert prev[3 * i..3 * i + 3] == DayLines(i, start, dateLabel, posts[i]);
        } else {
          assert all[3 * i..3 * i + 3] == day;
        }
      }
    }
  }

  /** Appending a block of three lines keeps the earlier blocks in place. */
  lemma AppendTriple(prev: seq<string>, day: seq<string>, m: nat)
    requires |prev| == 3 * m && |day| == 3
    ensures |prev + day| == 3 * (m + 1)
    ensures forall i | 0 <= i < m :: (prev + day)[3 * i..3 * i + 3] == prev[3 * i..3 * i + 3]
    ensures (prev + day)[3 * m..3 * m + 3] == day
  {
    forall i | 0 <= i < m ensures (prev + day)[3 * i..3 * i + 3] == prev[3 * i..3 * i + 3] {
      assert 3 * i + 3 <= 3 * m;
    }
  }

  /**
   * The plan has 32 lines: the six header lines naming the niche and the
   * audience, three lines for each of the seven days (heading with the day's
   * number, weekday and date; the day's post; a blank line), and the five
   * footer lines.
   */
  lemma PlanShape(brief: Brief, start: int, dateLabel: int -> string, posts: seq<string>)
    requires |posts| == 7
    ensures var lines := PlanLines(brief, start, dateLabel, posts);
      && |lines| == 32
      && lines[..6] == HeaderLines(brief)
      && lines[27..] == FooterLines
    ensures var lines := PlanLines(brief, start, dateLabel, posts);
      forall i | 0 <= i < 7 ::
        && lines[6 + 3 * i] == DayHeading(i, WeekdayName(start + i), dateLabel(start + i))
        && lines[7 + 3 * i] == posts[i]
        && lines[8 + 3 * i] == ""
  {
    var header := HeaderLines(brief);
    var blocks := DayBlocks(7, start, dateLabel, posts);
    DayBlocksShape(7, start, dateLabel, posts);
    assert |header| == 6;
    assert |FooterLines| == 5;
    LinesLayout(header, blocks, FooterLines);
    var lines := PlanLines(brief, start, dateLabel, posts);
    assert lines == header + blocks + FooterLines;
    forall i | 0 <= i < 7
      ensures lines[6 + 3 * i] == DayHeading(i, WeekdayName(start + i), dateLabel(start + i))
      ensures lines[7 + 3 * i] == posts[i]
      ensures lines[8 + 3 * i] == ""
    {
      var day := DayLines(i, start, dateLabel, posts[i]);
      assert blocks[3 * i..3 * i + 3] == day;
      assert blocks[3 * i] == day[0] && blocks[3 * i + 1] == day[1] && blocks[3 * i + 2] == day[2];
    }
  }

  /** The header, the 21 day lines and the footer, each at its place among the 32 lines. */
  lemma LinesLayout(header: seq<string>, blocks: seq<string>, footer: seq<string>)
    requires |header| == 6 && |blocks| == 21 && |footer| == 5
    ensures var lines := header + blocks + footer;
      && |lines| == 32 && lines[..6] == header && lines[27..] == footer
      && forall k | 0 <= k < 21 :: lines[6 + k] == blocks[k]
  {
  }

  /** The post under day `i`'s heading is that day's template of its category, filled in. */
  lemma PlanPosts(brief: Brief, start: int, dateLabel: int -> string, picks: seq<nat>, i: nat)
    requires ValidPicks(picks) && i < 7
    ensures |PlanLines(brief, start, dateLabel, DayPosts(brief, picks))| == 32
    ensures PlanLines(brief, start, dateLabel, DayPosts(brief, picks))[7 + 3 * i]
      == DayContent(i, picks[i], brief.niche, brief.audience)
  {
    PlanShape(brief, start, dateLabel, DayPosts(brief, picks));
    DayPostsAre(brief, picks, i);
  }

  /** A word inside one line of the plan occurs in the plan. */
  lemma LineWordInPlan(lines: seq<string>, k: nat, pre: string, w: string, post: string)
    requires k < |lines| && lines[k] == pre + w + post
    ensures IsInfix(w, Join(lines, "\n"))
  {
    InfixOfConcat(pre, w, post);
    JoinContains(lines, "\n", k);
    InfixTransitive(w, lines[k], Join(lines, "\n"));
  }

  /** The header names the plan, the niche and the audience. */
  lemma PlanMentionsHeader(brief: Brief, start: int, dateLabel: int -> string, posts: seq<string>)
    requires |posts| == 7
    ensures var plan := Join(PlanLines(brief, start, dateLabel, posts), "\n");
      IsInfix(PlanTitle, plan) && IsInfix(brief.niche, plan) && IsInfix(brief.audience, plan)
  {
    var lines := PlanLines(brief, start, dateLabel, posts);
    var header := HeaderLines(brief);
    assert lines[..6] == header by {
      PlanShape(brief, start, dateLabel, posts);
    }
    assert lines[0] == header[0] && lines[1] == header[1] && lines[2] == header[2];
    LineWordInPlan(lines, 0, "📋 <b>", PlanTitle, "</b>");
    LineWordInPlan(lines, 1, "🎯 Ниша: <b>", brief.niche, "</b>");
    LineWordInPlan(lines, 2, "👥 ЦА: <b>", brief.audience, "</b>");
  }

  /** The footer gives the tip. */
  lemma PlanMentionsTip(brief: Brief, start: int, dateLabel: int -> string, posts: seq<string>)
    requires |posts| == 7
    ensures IsInfix(TipWord, Join(PlanLines(brief, start, dateLabel, posts), "\n"))
  {
    var lines := PlanLines(brief, start, dateLabel, posts);
    assert lines[27..] == FooterLines by {
      PlanShape(brief, start, dateLabel, posts);
    }
    assert lines[29] == FooterLines[2];
    LineWordInPlan(lines, 29, "💡 <i>", TipWord, ": адаптируйте план под свой стиль и актуальные события!</i>");
  }

  /** Every day from "День 1" to "День 7" has its heading. */
  lemma PlanMentionsDays(brief: Brief, start: int, dateLabel: int -> string, posts: seq<string>)
    requires |posts| == 7
    ensures forall n | 1 <= n <= 7 :: IsInfix("День " + NatToString(n), Join(PlanLines(brief, start, dateLabel, posts), "\n"))
  {
    var lines := PlanLines(brief, start, dateLabel, posts);
    PlanShape(brief, start, dateLabel, posts);
    forall n | 1 <= n <= 7
      ensures IsInfix("День " + NatToString(n), Join(lines, "\n"))
    {
      var i := n - 1;
      var heading := DayHeading(i, WeekdayName(start + i), dateLabel(start + i));
      DayHeadingNumber(i, WeekdayName(start + i), dateLabel(start + i));
      JoinContains(lines, "\n", 6 + 3 * i);
      InfixTransitive("День " + NatToString(n), heading, Join(lines, "\n"));
    }
  }

  /** A day's heading carries the day's number. */
  lemma DayHeadingNumber(i: nat, weekday: string, date: string)
    ensures IsInfix("День " + NatToString(i + 1), DayHeading(i, weekday, date))
  {
    var rest := "</b> • " + weekday + ", " + date;
    InfixOfConcat("<b>", "День " + NatToString(i + 1), rest);
    assert DayHeading(i, weekday, date) == "<b>" + ("День " + NatToString(i + 1)) + rest;
  }

  /**
   * What the plan tests check of `generate_content_plan`: the title, the
   * tip, the parsed niche and audience, and the headings of days 1 and 7 are
   * all in the plan.
   */
  lemma GeneratedPlanProperties(userInput: string, start: int, dateLabel: int -> string, picks: seq<nat>, plan: string)
    requires ValidPicks(picks)
    requires var brief := ParseUserInput(userInput);
      plan == Join(PlanLines(brief, start, dateLabel, DayPosts(brief, picks)), "\n")
    ensures IsInfix(PlanTitle, plan) && IsInfix(TipWord, plan)
    ensures IsInfix(ParseUserInput(userInput).niche, plan) && IsInfix(ParseUserInput(userInput).audience, plan)
    ensures IsInfix("День 1", plan) && IsInfix("День 7", plan)
  {
    var brief := ParseUserInput(userInput);
    var posts := DayPosts(brief, picks);
    PlanMentionsHeader(brief, start, dateLabel, posts);
    PlanMentionsTip(brief, start, dateLabel, posts);
    PlanMentionsDays(brief, start, dateLabel, posts);
    assert "День 1" == "День " + NatToString(1);
    assert "День 7" == "День " + NatToString(7);
  }

  lemma SportsShape()
    ensures "ниша: фитнес, ЦА: спортсмены" == MarkedInput(": ", "фитнес", ": ", "спортсмены")
    ensures PlainParts(": ", "фитнес", ": ", "спортсмены")
  {
    assert AllSeparators(": ");
  }

  /** The plan test's request names its niche and its audience in the plan, whatever was drawn. */
  lemma ExampleSportsPlan(text: string, start: int, dateLabel: int -> string, picks: seq<nat>, plan: string)
    requires text == "ниша: фитнес, ЦА: спортсмены"
    requires ValidPicks(picks)
    requires var brief := ParseUserInput(text);
      plan == Join(PlanLines(brief, start, dateLabel, DayPosts(brief, picks)), "\n")
    ensures IsInfix("фитнес", plan) && IsInfix("спортсмены", plan)
  {
    SportsShape();
    ParseMarkedInput(": ", "фитнес", ": ", "спортсмены");
    GeneratedPlanProperties(text, start, dateLabel, picks, plan);
  }
}
