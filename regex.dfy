/**
 * A recogniser for the small regular expressions the calendar code uses:
 * digit runs with a repetition range, optional or mandatory whitespace,
 * one-character classes and literal text, with capturing groups.
 *
 * Every quantified token in those expressions is followed by a token that
 * cannot start with a character the quantifier consumes, so a greedy match
 * that never gives characters back finds the same match as a backtracking
 * engine; the recogniser relies on that and does not backtrack.
 */
module Regex {
  import opened Wrappers
  import opened Text

  datatype Tok =
    | Digits(lo: nat, hi: nat)     // \d{lo,hi}
    | Spaces(atLeastOne: bool)     // \s+ or \s*
    | AnyOf(chars: string)         // [...]
    | Lit(text: string)            // literal text

  /** A pattern part: a run of tokens, captured as a group or not. */
  datatype Part = Part(captured: bool, toks: seq<Tok>)

  type Pattern = seq<Part>

  /** How many characters from `i` satisfy the run's class, up to `max`. */
  function DigitRun(s: string, i: nat, max: nat): (n: nat)
    requires i <= |s|
    ensures i + n <= |s| && n <= max
    ensures forall k :: i <= k < i + n ==> IsDigit(s[k])
    ensures n < max && i + n < |s| ==> !IsDigit(s[i + n])
    decreases max
  {
    if max == 0 || i == |s| || !IsDigit(s[i]) then 0 else 1 + DigitRun(s, i + 1, max - 1)
  }

  function SpaceRun(s: string, i: nat): (n: nat)
    requires i <= |s|
    ensures i + n <= |s|
    ensures forall k :: i <= k < i + n ==> IsSpace(s[k])
    ensures i + n < |s| ==> !IsSpace(s[i + n])
    decreases |s| - i
  {
    if i == |s| || !IsSpace(s[i]) then 0 else 1 + SpaceRun(s, i + 1)
  }

  /** Where one token, matched greedily at `i`, ends. */
  function TokEnd(s: string, i: nat, t: Tok): (r: Option<nat>)
    requires i <= |s|
    ensures r.Some? ==> i <= r.value <= |s|
  {
    match t
    case Digits(lo, hi) =>
      var n := DigitRun(s, i, hi);
      if n >= lo then Some(i + n) else None
    case Spaces(one) =>
      var n := SpaceRun(s, i);
      if one && n == 0 then None else Some(i + n)
    case AnyOf(cs) =>
      if i < |s| && s[i] in cs then Some(i + 1) else None
    case Lit(text) =>
      if i + |text| <= |s| && s[i..i + |text|] == text then Some(i + |text|) else None
  }

  function ToksEnd(s: string, i: nat, toks: seq<Tok>): (r: Option<nat>)
    requires i <= |s|
    ensures r.Some? ==> i <= r.value <= |s|
    decreases |toks|
  {
    if toks == [] then Some(i)
    else
      match TokEnd(s, i, toks[0])
      case None => None
      case Some(j) => ToksEnd(s, j, toks[1..])
  }

  function CapCount(p: Pattern): nat {
    if p == [] then 0 else (if p[0].captured then 1 else 0) + CapCount(p[1..])
  }

  /** The end of a match of `p` anchored at `i`, and the captured texts in group order. */
  function MatchAt(s: string, i: nat, p: Pattern): (r: Option<(nat, seq<string>)>)
    requires i <= |s|
    ensures r.Some? ==> i <= r.value.0 <= |s| && |r.value.1| == CapCount(p)
    decreases |p|
  {
    if p == [] then Some((i, []))
    else
      match ToksEnd(s, i, p[0].toks)
      case None => None
      case Some(j) =>
        match MatchAt(s, j, p[1..])
        case None => None
        case Some((k, caps)) => Some((k, (if p[0].captured then [s[i..j]] else []) + caps))
  }

  /** `re.match(p, s)`: the groups of a match at the start, if there is one. */
  function MatchStart(s: string, p: Pattern): (r: Option<seq<string>>)
    ensures r.Some? ==> |r.value| == CapCount(p)
  {
    match MatchAt(s, 0, p)
    case None => None
    case Some((_, caps)) => Some(caps)
  }

  function SearchFrom(s: string, p: Pattern, i: nat): (r: Option<seq<string>>)
    requires i <= |s|
    ensures r.Some? ==> |r.value| == CapCount(p)
    decreases |s| - i
  {
    match MatchAt(s, i, p)
    case Some((_, caps)) => Some(caps)
    case None => if i == |s| then None else SearchFrom(s, p, i + 1)
  }

  /** `re.search(p, s)`: the groups of the leftmost match, if there is one. */
  function Search(s: string, p: Pattern): (r: Option<seq<string>>)
    ensures r.Some? ==> |r.value| == CapCount(p)
  {
    SearchFrom(s, p, 0)
  }

  // ---------------------------------------------------------------- what a match needs

  /** A literal token that every match of `p` must contain. */
  predicate NeedsLit(p: Pattern, text: string) {
    exists k, m :: 0 <= k < |p| && 0 <= m < |p[k].toks| && p[k].toks[m] == Lit(text)
  }

  lemma {:induction false} ToksEndHasLit(s: string, i: nat, toks: seq<Tok>, m: nat, text: string)
    requires i <= |s| && m < |toks| && toks[m] == Lit(text) && text != []
    requires ToksEnd(s, i, toks).Some?
    ensures text[0] in s
    decreases m
  {
    var j := TokEnd(s, i, toks[0]).value;
    if m == 0 {
      assert s[i..i + |text|][0] == s[i];
    } else {
      ToksEndHasLit(s, j, toks[1..], m - 1, text);
    }
  }

  lemma {:induction false} MatchAtHasLit(s: string, i: nat, p: Pattern, k: nat, m: nat, text: string)
    requires i <= |s| && k < |p| && m < |p[k].toks| && p[k].toks[m] == Lit(text) && text != []
    requires MatchAt(s, i, p).Some?
    ensures text[0] in s
    decreases k
  {
    var j := ToksEnd(s, i, p[0].toks).value;
    if k == 0 {
      ToksEndHasLit(s, i, p[0].toks, m, text);
    } else {
      MatchAtHasLit(s, j, p[1..], k - 1, m, text);
    }
  }

  /** A pattern that needs a literal cannot match text lacking the literal's first character. */
  lemma NoMatchWithoutLit(s: string, p: Pattern, text: string)
    requires NeedsLit(p, text) && text != [] && text[0] !in s
    ensures MatchStart(s, p).None?
    ensures Search(s, p).None?
  {
    var k, m :| 0 <= k < |p| && 0 <= m < |p[k].toks| && p[k].toks[m] == Lit(text);
    if MatchAt(s, 0, p).Some? {
      MatchAtHasLit(s, 0, p, k, m, text);
    }
    NoSearchWithoutLit(s, p, text, k, m, 0);
  }

  lemma {:induction false} NoSearchWithoutLit(s: string, p: Pattern, text: string, k: nat, m: nat, i: nat)
    requires k < |p| && m < |p[k].toks| && p[k].toks[m] == Lit(text) && text != [] && text[0] !in s
    requires i <= |s|
    ensures SearchFrom(s, p, i).None?
    decreases |s| - i
  {
    if MatchAt(s, i, p).Some? {
      MatchAtHasLit(s, i, p, k, m, text);
    }
    if i < |s| {
      NoSearchWithoutLit(s, p, text, k, m, i + 1);
    }
  }

  /** The fewest characters a token can consume. */
  function TokMin(t: Tok): nat {
    match t
    case Digits(lo, _) => lo
    case Spaces(one) => if one then 1 else 0
    case AnyOf(_) => 1
    case Lit(text) => |text|
  }

  function ToksMin(toks: seq<Tok>): nat
    decreases |toks|
  {
    if toks == [] then 0 else TokMin(toks[0]) + ToksMin(toks[1..])
  }

  function PatternMin(p: Pattern): nat
    decreases |p|
  {
    if p == [] then 0 else ToksMin(p[0].toks) + PatternMin(p[1..])
  }

  lemma {:induction false} ToksEndMin(s: string, i: nat, toks: seq<Tok>)
    requires i <= |s| && ToksEnd(s, i, toks).Some?
    ensures ToksEnd(s, i, toks).value >= i + ToksMin(toks)
    decreases |toks|
  {
    if toks != [] {
      ToksEndMin(s, TokEnd(s, i, toks[0]).value, toks[1..]);
    }
  }

  lemma {:induction false} MatchAtMin(s: string, i: nat, p: Pattern)
    requires i <= |s| && MatchAt(s, i, p).Some?
    ensures i + PatternMin(p) <= |s|
    decreases |p|
  {
    if p != [] {
      var j := ToksEnd(s, i, p[0].toks).value;
      ToksEndMin(s, i, p[0].toks);
      MatchAtMin(s, j, p[1..]);
    }
  }

  /** Text shorter than the least a pattern consumes holds no match of it. */
  lemma NoMatchWhenShort(s: string, p: Pattern)
    requires |s| < PatternMin(p)
    ensures MatchStart(s, p).None?
    ensures Search(s, p).None?
  {
    NoSearchWhenShort(s, p, 0);
  }

  lemma {:induction false} NoSearchWhenShort(s: string, p: Pattern, i: nat)
    requires |s| < PatternMin(p) && i <= |s|
    ensures SearchFrom(s, p, i).None?
    ensures MatchAt(s, i, p).None?
    decreases |s| - i
  {
    if MatchAt(s, i, p).Some? {
      MatchAtMin(s, i, p);
    }
    if i < |s| {
      NoSearchWhenShort(s, p, i + 1);
    }
  }

  // ---------------------------------------------------------------- matching known text

  lemma DigitsMatch(s: string, i: nat, w: nat, lo: nat, hi: nat)
    requires i + w <= |s| && lo <= w <= hi
    requires forall k :: i <= k < i + w ==> IsDigit(s[k])
    requires i + w == |s| || !IsDigit(s[i + w])
    ensures TokEnd(s, i, Digits(lo, hi)) == Some(i + w)
  {
    DigitRunExact(s, i, w, hi);
  }

  lemma {:induction false} DigitRunExact(s: string, i: nat, w: nat, max: nat)
    requires i + w <= |s| && w <= max
    requires forall k :: i <= k < i + w ==> IsDigit(s[k])
    requires i + w == |s| || !IsDigit(s[i + w])
    ensures DigitRun(s, i, max) == w
    decreases max
  {
    if w > 0 {
      DigitRunExact(s, i + 1, w - 1, max - 1);
    }
  }

  lemma {:induction false} SpaceRunExact(s: string, i: nat, w: nat)
    requires i + w <= |s|
    requires forall k :: i <= k < i + w ==> IsSpace(s[k])
    requires i + w == |s| || !IsSpace(s[i + w])
    ensures SpaceRun(s, i) == w
    decreases w
  {
    if w > 0 {
      SpaceRunExact(s, i + 1, w - 1);
    }
  }

  lemma LitMatch(s: string, i: nat, text: string)
    requires i + |text| <= |s| && s[i..i + |text|] == text
    ensures TokEnd(s, i, Lit(text)) == Some(i + |text|)
  {
  }

  // ---------------------------------------------------------------- composing matches

  lemma ToksEndCons(s: string, i: nat, t: Tok, rest: seq<Tok>, j: nat)
    requires i <= |s| && TokEnd(s, i, t) == Some(j)
    ensures ToksEnd(s, i, [t] + rest) == ToksEnd(s, j, rest)
  {
    assert ([t] + rest)[0] == t && ([t] + rest)[1..] == rest;
  }

  lemma ToksEndStep(s: string, i: nat, toks: seq<Tok>, j: nat)
    requires i <= |s| && toks != [] && TokEnd(s, i, toks[0]) == Some(j)
    ensures ToksEnd(s, i, toks) == ToksEnd(s, j, toks[1..])
  {
  }

  /** Five tokens in a row, each ending where the next starts. */
  lemma ToksEndFive(s: string, t: seq<Tok>, i: nat, a: nat, b: nat, c: nat, e: nat, f: nat)
    requires |t| == 5 && i <= a <= b <= c <= e <= f <= |s|
    requires TokEnd(s, i, t[0]) == Some(a) && TokEnd(s, a, t[1]) == Some(b)
    requires TokEnd(s, b, t[2]) == Some(c) && TokEnd(s, c, t[3]) == Some(e)
    requires TokEnd(s, e, t[4]) == Some(f)
    ensures ToksEnd(s, i, t) == Some(f)
  {
    assert t[1..][0] == t[1] && t[2..][0] == t[2] && t[3..][0] == t[3] && t[4..][0] == t[4];
    assert t[1..][1..] == t[2..] && t[2..][1..] == t[3..] && t[3..][1..] == t[4..] && t[4..][1..] == [];
    ToksEndStep(s, i, t, a);
    ToksEndStep(s, a, t[1..], b);
    ToksEndStep(s, b, t[2..], c);
    ToksEndStep(s, c, t[3..], e);
    ToksEndStep(s, e, t[4..], f);
  }

  lemma ToksEndOne(s: string, i: nat, t: Tok, j: nat)
    requires i <= |s| && TokEnd(s, i, t) == Some(j)
    ensures ToksEnd(s, i, [t]) == Some(j)
  {
    ToksEndStep(s, i, [t], j);
  }

  lemma ToksEndTwo(s: string, i: nat, t: Tok, j: nat, u: Tok, k: nat)
    requires i <= |s| && TokEnd(s, i, t) == Some(j) && TokEnd(s, j, u) == Some(k)
    ensures ToksEnd(s, i, [t, u]) == Some(k)
  {
    ToksEndStep(s, i, [t, u], j);
    ToksEndOne(s, j, u, k);
    assert [t, u][1..] == [u];
  }

  lemma ToksEndAppend(s: string, i: nat, a: seq<Tok>, b: seq<Tok>, j: nat)
    requires i <= |s| && ToksEnd(s, i, a) == Some(j)
    ensures ToksEnd(s, i, a + b) == ToksEnd(s, j, b)
    decreases |a|
  {
    if a != [] {
      var k := TokEnd(s, i, a[0]).value;
      assert (a + b)[0] == a[0] && (a + b)[1..] == a[1..] + b;
      ToksEndAppend(s, k, a[1..], b, j);
    } else {
      assert a + b == b;
    }
  }

  /** Matching a pattern part by part: each part's tokens end where the next part starts. */
  lemma MatchAtCons(s: string, i: nat, part: Part, rest: Pattern, j: nat)
    requires i <= |s| && ToksEnd(s, i, part.toks) == Some(j)
    ensures MatchAt(s, i, [part] + rest) ==
      match MatchAt(s, j, rest)
      case None => None
      case Some((k, caps)) => Some((k, (if part.captured then [s[i..j]] else []) + caps))
  {
    assert ([part] + rest)[0] == part && ([part] + rest)[1..] == rest;
  }

  /** An uncaptured part followed by a matching rest adds nothing to the groups. */
  lemma MatchPlain(s: string, i: nat, toks: seq<Tok>, rest: Pattern, j: nat)
    requires i <= |s| && ToksEnd(s, i, toks) == Some(j) && MatchAt(s, j, rest).Some?
    ensures MatchAt(s, i, [Part(false, toks)] + rest) == MatchAt(s, j, rest)
  {
    var p := [Part(false, toks)] + rest;
    assert p[0] == Part(false, toks) && p[1..] == rest;
    MatchAtStep(s, i, p, j);
    assert [] + MatchAt(s, j, rest).value.1 == MatchAt(s, j, rest).value.1;
  }

  /** A captured part followed by a matching rest puts its text in front of the rest's groups. */
  lemma MatchGroup(s: string, i: nat, toks: seq<Tok>, rest: Pattern, j: nat)
    requires i <= |s| && ToksEnd(s, i, toks) == Some(j) && MatchAt(s, j, rest).Some?
    ensures MatchAt(s, i, [Part(true, toks)] + rest) ==
      Some((MatchAt(s, j, rest).value.0, [s[i..j]] + MatchAt(s, j, rest).value.1))
  {
    var p := [Part(true, toks)] + rest;
    assert p[0] == Part(true, toks) && p[1..] == rest;
    MatchAtStep(s, i, p, j);
  }

  lemma MatchAtStep(s: string, i: nat, p: Pattern, j: nat)
    requires i <= |s| && p != [] && ToksEnd(s, i, p[0].toks) == Some(j) && MatchAt(s, j, p[1..]).Some?
    ensures MatchAt(s, i, p) ==
      Some((MatchAt(s, j, p[1..]).value.0, (if p[0].captured then [s[i..j]] else []) + MatchAt(s, j, p[1..]).value.1))
  {
  }

  lemma SpacesMatch(s: string, i: nat, w: nat, one: bool)
    requires i + w <= |s|
    requires forall k :: i <= k < i + w ==> IsSpace(s[k])
    requires i + w == |s| || !IsSpace(s[i + w])
    requires one ==> w > 0
    ensures TokEnd(s, i, Spaces(one)) == Some(i + w)
  {
    SpaceRunExact(s, i, w);
  }

  /** A run of digits in the text, not followed by another digit, is one `Digits` token. */
  lemma DigitsRunAt(s: string, i: nat, w: string, lo: nat, hi: nat)
    requires AllDigits(w) && lo <= |w| <= hi && i + |w| <= |s| && s[i..i + |w|] == w
    requires i + |w| == |s| || !IsDigit(s[i + |w|])
    ensures TokEnd(s, i, Digits(lo, hi)) == Some(i + |w|)
  {
    forall k | i <= k < i + |w| ensures IsDigit(s[k]) {
      assert s[k] == s[i..i + |w|][k - i];
    }
    DigitsMatch(s, i, |w|, lo, hi);
  }

  /** `DigitsRunAt` with the end of the run named. */
  lemma DigitsRunTo(s: string, i: nat, w: string, lo: nat, hi: nat, j: nat)
    requires j == i + |w| && AllDigits(w) && lo <= |w| <= hi && j <= |s| && s[i..j] == w
    requires j == |s| || !IsDigit(s[j])
    ensures TokEnd(s, i, Digits(lo, hi)) == Some(j)
  {
    DigitsRunAt(s, i, w, lo, hi);
  }

  lemma SpacesRunAt(s: string, i: nat, w: string, one: bool)
    requires IsBlank(w) && i + |w| <= |s| && s[i..i + |w|] == w && (one ==> w != [])
    requires i + |w| == |s| || !IsSpace(s[i + |w|])
    ensures TokEnd(s, i, Spaces(one)) == Some(i + |w|)
  {
    forall k | i <= k < i + |w| ensures IsSpace(s[k]) {
      assert s[k] == s[i..i + |w|][k - i];
    }
    SpacesMatch(s, i, |w|, one);
  }

  /** A match at the very start is what `re.search` finds. */
  lemma SearchAtStart(s: string, p: Pattern)
    requires MatchAt(s, 0, p).Some?
    ensures Search(s, p) == Some(MatchAt(s, 0, p).value.1)
  {
  }
}
