/**
 * The fragment of JavaScript regular expressions that the formatters use:
 * the global digit filter `/\D/g`, and non-global `String.prototype.replace`
 * with a pattern made of capture groups `(\d{lo,hi})` and a `$n` template.
 *
 * A non-global replace rewrites only the FIRST (leftmost) match. Each
 * quantifier is greedy and backtracks one step at a time, which is what
 * `MatchPrefix`/`TryCounts` spell out; `MatchAt` gives the closed form of
 * that search and the lemmas below rely on it.
 */
module Regex {
  import opened Wrappers

  predicate IsDigit(c: char) { '0' <= c <= '9' }

  predicate AllDigits(s: string) { forall i :: 0 <= i < |s| ==> IsDigit(s[i]) }

  /** `s.replace(/\D/g, '')`: the digits of `s`, in order. */
  function Digits(s: string): (r: string)
    ensures AllDigits(r) && |r| <= |s|
  {
    if s == [] then [] else (if IsDigit(s[0]) then [s[0]] else []) + Digits(s[1..])
  }

  lemma {:induction false} DigitsAppend(a: string, b: string)
    ensures Digits(a + b) == Digits(a) + Digits(b)
  {
    if a == [] {
      assert a + b == b;
    } else {
      assert (a + b)[1..] == a[1..] + b;
      DigitsAppend(a[1..], b);
    }
  }

  lemma {:induction false} DigitsOfDigits(s: string)
    requires AllDigits(s)
    ensures Digits(s) == s
  {
    if s != [] {
      DigitsOfDigits(s[1..]);
    }
  }

  /** The number of digits at the start of `t`. */
  function RunLength(t: string): (r: nat)
    ensures r <= |t|
  {
    if t != [] && IsDigit(t[0]) then 1 + RunLength(t[1..]) else 0
  }

  /** A prefix of `t` is all digits exactly when it is no longer than the run. */
  lemma {:induction false} DigitPrefix(t: string, k: nat)
    requires k <= |t|
    ensures AllDigits(t[..k]) <==> k <= RunLength(t)
  {
    if k > 0 {
      assert t[..k][0] == t[0];
      if IsDigit(t[0]) {
        DigitPrefix(t[1..], k - 1);
        assert t[1..][..k - 1] == t[..k][1..];
        if AllDigits(t[1..][..k - 1]) {
          assert forall i :: 1 <= i < k ==> t[..k][i] == t[1..][..k - 1][i - 1];
        }
      }
    }
  }

  lemma {:induction false} RunLengthDrop(t: string, k: nat)
    requires k <= RunLength(t)
    ensures RunLength(t[k..]) == RunLength(t) - k
  {
    if k > 0 {
      assert t[k..] == t[1..][k - 1..];
      RunLengthDrop(t[1..], k - 1);
    }
  }

  lemma {:induction false} RunLengthAppend(a: string, b: string)
    requires AllDigits(a)
    ensures RunLength(a + b) == |a| + RunLength(b)
  {
    if a == [] {
      assert a + b == b;
    } else {
      assert (a + b)[1..] == a[1..] + b;
      RunLengthAppend(a[1..], b);
    }
  }

  /** `\d{lo,hi}`: a greedy digit quantifier; `\d{n}` is `Quant(n, n)`. */
  datatype Quant = Quant(lo: nat, hi: nat)

  /** A pattern `(\d{..})(\d{..})...`: one capture group per quantifier. */
  type Pattern = seq<Quant>

  predicate WellFormed(gs: Pattern) { forall i :: 0 <= i < |gs| ==> gs[i].lo <= gs[i].hi }

  /** The fewest characters a match of `gs` can take. */
  function MinLength(gs: Pattern): nat
  {
    if gs == [] then 0 else gs[0].lo + MinLength(gs[1..])
  }

  /** The number of characters the captures span together. */
  function Width(caps: seq<string>): nat
  {
    if caps == [] then 0 else |caps[0]| + Width(caps[1..])
  }

  /** The captures of an anchored match of `gs` at the start of `t`, as a
    * backtracking matcher yields them: one after the other. */
  function MatchPrefix(t: string, gs: Pattern): (m: Option<seq<string>>)
    ensures m.Some? ==> |m.value| == |gs| && Width(m.value) <= |t|
    decreases |gs|, 1, 0
  {
    if gs == [] then Some([]) else TryCounts(t, gs, gs[0].hi)
  }

  /** Try the first quantifier with `k`, `k - 1`, ..., `lo` digits, the
    * first count for which the rest of the pattern matches winning. The
    * quantifier can take `k` characters when they are all digits, that is
    * (`DigitPrefix`) when `k` is at most the digit run. */
  function TryCounts(t: string, gs: Pattern, k: nat): (m: Option<seq<string>>)
    requires gs != []
    ensures m.Some? ==> |m.value| == |gs| && Width(m.value) <= |t|
    decreases |gs|, 0, k
  {
    if k < gs[0].lo then None
    else if k <= RunLength(t) && MatchPrefix(t[k..], gs[1..]).Some? then
      var rest := MatchPrefix(t[k..], gs[1..]).value;
      assert ([t[..k]] + rest)[1..] == rest;
      Some([t[..k]] + rest)
    else if k == 0 then None
    else TryCounts(t, gs, k - 1)
  }

  /** Greedy allocation of a run of `r` digits to the quantifiers: each takes
    * as many as it may while leaving enough for the ones after it. */
  function MatchAt(t: string, r: nat, gs: Pattern): (caps: seq<string>)
    requires WellFormed(gs) && MinLength(gs) <= r <= |t|
    ensures |caps| == |gs| && Width(caps) <= r
    decreases |gs|
  {
    if gs == [] then []
    else
      var c := Min(gs[0].hi, r - MinLength(gs[1..]));
      TailWellFormed(gs);
      var rest := MatchAt(t[c..], r - c, gs[1..]);
      assert ([t[..c]] + rest)[1..] == rest;
      [t[..c]] + rest
  }

  lemma {:induction false} MatchPrefixSpec(t: string, gs: Pattern)
    requires WellFormed(gs)
    ensures MatchPrefix(t, gs) ==
            if RunLength(t) >= MinLength(gs) then Some(MatchAt(t, RunLength(t), gs)) else None
    decreases |gs|, 1, 0
  {
    if gs != [] {
      TryCountsSpec(t, gs, gs[0].hi);
      GreedyFull(t, gs);
    }
  }

  lemma {:induction false} GreedyFull(t: string, gs: Pattern)
    requires gs != [] && WellFormed(gs)
    ensures Greedy(t, gs, gs[0].hi) ==
            if RunLength(t) >= MinLength(gs) then Some(MatchAt(t, RunLength(t), gs)) else None
  {
    TailWellFormed(gs);
    var r, tail := RunLength(t), gs[1..];
    var c := Min(gs[0].hi, r - MinLength(tail));
    assert MinLength(gs) == gs[0].lo + MinLength(tail);
    assert gs[0].lo <= gs[0].hi;
    assert c >= gs[0].lo <==> r >= MinLength(gs);
    if r >= MinLength(gs) {
      assert MatchAt(t, r, gs) == [t[..c]] + MatchAt(t[c..], r - c, tail);
    }
  }

  lemma {:induction false} TryCountsSpec(t: string, gs: Pattern, k: nat)
    requires gs != [] && WellFormed(gs) && k <= gs[0].hi
    ensures TryCounts(t, gs, k) == Greedy(t, gs, k)
    decreases |gs|, 0, k
  {
    TailWellFormed(gs);
    var r := RunLength(t);
    if k < gs[0].lo {
    } else if k <= r && MatchPrefix(t[k..], gs[1..]).Some? {
      RunLengthDrop(t, k);
      MatchPrefixSpec(t[k..], gs[1..]);
      GreedyTakesAll(t, gs, k);
    } else {
      if k <= r {
        RunLengthDrop(t, k);
        MatchPrefixSpec(t[k..], gs[1..]);
      }
      if k > 0 {
        TryCountsSpec(t, gs, k - 1);
        GreedyStep(t, gs, k);
      } else {
        GreedyZero(t, gs);
      }
    }
  }

  lemma {:induction false} TailWellFormed(gs: Pattern)
    requires gs != [] && WellFormed(gs)
    ensures WellFormed(gs[1..])
  {
    forall i | 0 <= i < |gs[1..]| ensures gs[1..][i].lo <= gs[1..][i].hi {
      assert gs[1..][i] == gs[i + 1];
    }
  }

  /** The closed form of `TryCounts(t, gs, k)`: the first quantifier takes
    * as many digits as `k` allows and the rest of the pattern leaves. */
  function Greedy(t: string, gs: Pattern, k: nat): Option<seq<string>>
    requires gs != [] && WellFormed(gs)
  {
    var r := RunLength(t);
    var c := Min(k, r - MinLength(gs[1..]));
    TailWellFormed(gs);
    if c >= gs[0].lo then Some([t[..c]] + MatchAt(t[c..], r - c, gs[1..])) else None
  }

  lemma {:induction false} GreedyTakesAll(t: string, gs: Pattern, k: nat)
    requires gs != [] && WellFormed(gs) && gs[0].lo <= k <= RunLength(t)
    requires RunLength(t[k..]) == RunLength(t) - k >= MinLength(gs[1..])
    ensures WellFormed(gs[1..])
    ensures Greedy(t, gs, k) == Some([t[..k]] + MatchAt(t[k..], RunLength(t) - k, gs[1..]))
  {
    TailWellFormed(gs);
  }

  lemma {:induction false} GreedyStep(t: string, gs: Pattern, k: nat)
    requires gs != [] && WellFormed(gs) && 0 < k
    requires k > RunLength(t) - MinLength(gs[1..])
    ensures Greedy(t, gs, k) == Greedy(t, gs, k - 1)
  {
    assert Min(k, RunLength(t) - MinLength(gs[1..])) == Min(k - 1, RunLength(t) - MinLength(gs[1..]));
  }

  lemma {:induction false} GreedyZero(t: string, gs: Pattern)
    requires gs != [] && WellFormed(gs)
    requires 0 > RunLength(t) - MinLength(gs[1..])
    ensures Greedy(t, gs, 0) == None
  {
  }

  function Sum(ns: seq<nat>): nat
  {
    if ns == [] then 0 else ns[0] + Sum(ns[1..])
  }

  /** The pattern `(\d{n1})(\d{n2})...` of fixed-width groups. */
  function Exact(ns: seq<nat>): (gs: Pattern)
    ensures |gs| == |ns| && WellFormed(gs) && MinLength(gs) == Sum(ns)
  {
    if ns == [] then []
    else
      var gs := [Quant(ns[0], ns[0])] + Exact(ns[1..]);
      assert gs[1..] == Exact(ns[1..]);
      assert forall i :: 1 <= i < |gs| ==> gs[i] == Exact(ns[1..])[i - 1];
      gs
  }

  /** `t` cut, from the front, into consecutive pieces of widths `ns`. */
  function Chunks(t: string, ns: seq<nat>): (caps: seq<string>)
    requires Sum(ns) <= |t|
    ensures |caps| == |ns| && Width(caps) == Sum(ns)
  {
    if ns == [] then []
    else
      var caps := [t[..ns[0]]] + Chunks(t[ns[0]..], ns[1..]);
      assert caps[1..] == Chunks(t[ns[0]..], ns[1..]);
      caps
  }

  /** A fixed-width pattern leaves no choice: its groups are the chunks. */
  lemma {:induction false} MatchAtExact(t: string, r: nat, ns: seq<nat>)
    requires Sum(ns) <= r <= |t|
    ensures MatchAt(t, r, Exact(ns)) == Chunks(t, ns)
  {
    if ns != [] {
      var gs := Exact(ns);
      assert gs[1..] == Exact(ns[1..]);
      MatchAtExact(t[ns[0]..], r - ns[0], ns[1..]);
    }
  }

  lemma {:induction false} Chunks2(t: string, a: nat, b: nat)
    requires a + b <= |t|
    ensures Sum([a, b]) == a + b
    ensures Chunks(t, [a, b]) == [t[..a], t[a..a + b]]
  {
    assert [a, b][1..] == [b];
    assert [b][1..] == [];
    assert Sum([b]) == b;
    assert Chunks(t[a..], [b]) == [t[a..][..b]] + Chunks(t[a..][b..], []);
    assert t[a..][..b] == t[a..a + b];
  }

  lemma {:induction false} Chunks4(t: string, a: nat, b: nat, c: nat, e: nat)
    requires a + b + c + e <= |t|
    ensures Sum([a, b, c, e]) == a + b + c + e
    ensures Chunks(t, [a, b, c, e]) == [t[..a], t[a..a + b], t[a + b..a + b + c], t[a + b + c..a + b + c + e]]
  {
    assert [a, b, c, e][1..] == [b, c, e];
    assert [b, c, e][1..] == [c, e];
    Chunks2(t[a + b..], c, e);
    assert t[a..][..b] == t[a..a + b];
    assert t[a..][b..] == t[a + b..];
    assert t[a + b..][..c] == t[a + b..a + b + c];
    assert t[a + b..][c..c + e] == t[a + b + c..a + b + c + e];
  }

  /** One group reference followed by the rest of a template. */
  lemma {:induction false} RenderRef(n: nat, tpl: seq<Piece>, caps: seq<string>)
    requires 1 <= n <= |caps| && ValidTemplate(tpl, |caps|)
    ensures ValidTemplate([Ref(n)] + tpl, |caps|)
    ensures Render([Ref(n)] + tpl, caps) == caps[n - 1] + Render(tpl, caps)
  {
    assert ([Ref(n)] + tpl)[1..] == tpl;
  }

  /** One literal followed by the rest of a template. */
  lemma {:induction false} RenderLit(x: string, tpl: seq<Piece>, caps: seq<string>)
    requires ValidTemplate(tpl, |caps|)
    ensures ValidTemplate([Lit(x)] + tpl, |caps|)
    ensures Render([Lit(x)] + tpl, caps) == x + Render(tpl, caps)
  {
    assert ([Lit(x)] + tpl)[1..] == tpl;
  }

  /** The text of a template with two groups and one separator. */
  lemma {:induction false} Render2(tpl: seq<Piece>, caps: seq<string>, x: string)
    requires tpl == [Ref(1), Lit(x), Ref(2)] && |caps| == 2
    ensures Render(tpl, caps) == caps[0] + x + caps[1]
  {
    RenderRef(2, [], caps);
    RenderLit(x, [Ref(2)], caps);
    RenderRef(1, [Lit(x), Ref(2)], caps);
    assert [Ref(2)] + [] == [Ref(2)];
    assert [Lit(x)] + [Ref(2)] == [Lit(x), Ref(2)];
    assert [Ref(1)] + [Lit(x), Ref(2)] == tpl;
  }

  /** The text of a template with four groups and three separators. */
  lemma {:induction false} Render4(tpl: seq<Piece>, caps: seq<string>, x: string, y: string, z: string)
    requires tpl == [Ref(1), Lit(x), Ref(2), Lit(y), Ref(3), Lit(z), Ref(4)] && |caps| == 4
    ensures Render(tpl, caps) == caps[0] + x + caps[1] + y + caps[2] + z + caps[3]
  {
    var t6 := [Ref(4)];
    var t5 := [Lit(z)] + t6;
    var t4 := [Ref(3)] + t5;
    var t3 := [Lit(y)] + t4;
    var t2 := [Ref(2)] + t3;
    var t1 := [Lit(x)] + t2;
    RenderRef(4, [], caps);
    assert [Ref(4)] + [] == t6;
    RenderLit(z, t6, caps);
    RenderRef(3, t5, caps);
    RenderLit(y, t4, caps);
    RenderRef(2, t3, caps);
    RenderLit(x, t2, caps);
    RenderRef(1, t1, caps);
    assert [Ref(1)] + t1 == tpl;
    Join7(caps[0], x, caps[1], y, caps[2], z, caps[3]);
  }

  lemma {:induction false} Join7(a: string, b: string, c: string, d: string, e: string, f: string, g: string)
    ensures a + (b + (c + (d + (e + (f + (g + [])))))) == a + b + c + d + e + f + g
  {
    assert g + [] == g;
  }

  /** A match found by a left-to-right search: its start and its captures. */
  datatype Match = Match(start: nat, groups: seq<string>)

  /** The leftmost position at or after `q` where `gs` matches. */
  function FirstMatch(s: string, q: nat, gs: Pattern): (m: Option<Match>)
    requires q <= |s|
    ensures m.Some? ==>
              && q <= m.value.start <= |s| && |m.value.groups| == |gs|
              && m.value.start + Width(m.value.groups) <= |s|
    decreases |s| - q
  {
    match MatchPrefix(s[q..], gs)
    case Some(caps) => Some(Match(q, caps))
    case None => if q == |s| then None else FirstMatch(s, q + 1, gs)
  }

  /** A replacement template: literal text and `$n` references (1-based). */
  datatype Piece = Lit(text: string) | Ref(group: nat)

  predicate ValidTemplate(tpl: seq<Piece>, groups: nat)
  {
    forall i :: 0 <= i < |tpl| ==> tpl[i].Ref? ==> 1 <= tpl[i].group <= groups
  }

  function Render(tpl: seq<Piece>, caps: seq<string>): string
    requires ValidTemplate(tpl, |caps|)
  {
    if tpl == [] then []
    else
      (match tpl[0]
       case Lit(text) => text
       case Ref(n) => caps[n - 1])
      + Render(tpl[1..], caps)
  }

  /** `s.replace(pattern, template)` with a non-global pattern: only the
    * leftmost match is rewritten; without a match `s` is returned. */
  function Replace(s: string, gs: Pattern, tpl: seq<Piece>): string
    requires ValidTemplate(tpl, |gs|)
  {
    match FirstMatch(s, 0, gs)
    case None => s
    case Some(Match(q, caps)) => s[..q] + Render(tpl, caps) + s[q + Width(caps)..]
  }

  lemma {:induction false} FirstMatchNone(s: string, q: nat, gs: Pattern)
    requires q <= |s| && WellFormed(gs)
    requires forall p :: q <= p <= |s| ==> RunLength(s[p..]) < MinLength(gs)
    ensures FirstMatch(s, q, gs) == None
    decreases |s| - q
  {
    MatchPrefixSpec(s[q..], gs);
    if q < |s| {
      FirstMatchNone(s, q + 1, gs);
    }
  }

  lemma {:induction false} FirstMatchHere(s: string, q: nat, gs: Pattern)
    requires q <= |s| && WellFormed(gs)
    requires RunLength(s[q..]) >= MinLength(gs)
    ensures FirstMatch(s, q, gs) == Some(Match(q, MatchAt(s[q..], RunLength(s[q..]), gs)))
  {
    MatchPrefixSpec(s[q..], gs);
  }

  /** Skipping positions where nothing matches does not change the result. */
  lemma {:induction false} FirstMatchSkip(s: string, q: nat, p: nat, gs: Pattern)
    requires q <= p <= |s|
    requires forall i :: q <= i < p ==> MatchPrefix(s[i..], gs).None?
    ensures FirstMatch(s, q, gs) == FirstMatch(s, p, gs)
    decreases p - q
  {
    if q < p {
      FirstMatchSkip(s, q + 1, p, gs);
    }
  }

  /** Searching `pre + t` from inside `t` is searching `t`, shifted. */
  lemma {:induction false} FirstMatchShift(pre: string, t: string, j: nat, gs: Pattern)
    requires j <= |t|
    ensures FirstMatch(t, j, gs).None? ==> FirstMatch(pre + t, |pre| + j, gs).None?
    ensures FirstMatch(t, j, gs).Some? ==>
              && FirstMatch(pre + t, |pre| + j, gs).Some?
              && FirstMatch(pre + t, |pre| + j, gs).value.start == |pre| + FirstMatch(t, j, gs).value.start
              && FirstMatch(pre + t, |pre| + j, gs).value.groups == FirstMatch(t, j, gs).value.groups
    decreases |t| - j
  {
    assert (pre + t)[|pre| + j..] == t[j..];
    if j < |t| {
      FirstMatchShift(pre, t, j + 1, gs);
    }
  }

  lemma {:induction false} RunLengthOfDigits(t: string)
    requires AllDigits(t)
    ensures RunLength(t) == |t|
  {
    if t != [] {
      assert AllDigits(t[1..]) by {
        forall i | 0 <= i < |t[1..]| ensures IsDigit(t[1..][i]) {
          assert t[1..][i] == t[i + 1];
        }
      }
      RunLengthOfDigits(t[1..]);
    }
  }

  lemma {:induction false} ReplaceAtMatch(s: string, gs: Pattern, tpl: seq<Piece>, q: nat, caps: seq<string>)
    requires ValidTemplate(tpl, |gs|)
    requires FirstMatch(s, 0, gs) == Some(Match(q, caps))
    ensures q + Width(caps) <= |s| && ValidTemplate(tpl, |caps|)
    ensures Replace(s, gs, tpl) == s[..q] + Render(tpl, caps) + s[q + Width(caps)..]
  {
  }

  lemma {:induction false} ReplaceWithoutMatch(s: string, gs: Pattern, tpl: seq<Piece>)
    requires ValidTemplate(tpl, |gs|)
    requires FirstMatch(s, 0, gs) == None
    ensures Replace(s, gs, tpl) == s
  {
  }

  lemma {:induction false} DigitsMatchNowhere(d: string, gs: Pattern)
    requires AllDigits(d) && WellFormed(gs) && |d| < MinLength(gs)
    ensures FirstMatch(d, 0, gs) == None
  {
    forall p | 0 <= p <= |d| ensures RunLength(d[p..]) < MinLength(gs) {
      assert AllDigits(d[p..]) by {
        forall i | 0 <= i < |d[p..]| ensures IsDigit(d[p..][i]) {
          assert d[p..][i] == d[p + i];
        }
      }
      RunLengthOfDigits(d[p..]);
    }
    FirstMatchNone(d, 0, gs);
  }

  lemma {:induction false} DigitsMatchAtStart(d: string, gs: Pattern)
    requires AllDigits(d) && WellFormed(gs) && |d| >= MinLength(gs)
    ensures FirstMatch(d, 0, gs) == Some(Match(0, MatchAt(d, |d|, gs)))
  {
    RunLengthOfDigits(d);
    assert d[0..] == d;
    FirstMatchHere(d, 0, gs);
  }

  /** On a string of digits long enough for it, the pattern matches at 0. */
  lemma {:induction false} ReplaceLongDigits(d: string, gs: Pattern, tpl: seq<Piece>)
    requires AllDigits(d) && WellFormed(gs) && ValidTemplate(tpl, |gs|)
    requires |d| >= MinLength(gs)
    ensures Replace(d, gs, tpl) == Render(tpl, MatchAt(d, |d|, gs)) + d[Width(MatchAt(d, |d|, gs))..]
  {
    var caps := MatchAt(d, |d|, gs);
    DigitsMatchAtStart(d, gs);
    ReplaceAtMatch(d, gs, tpl, 0, caps);
    assert d[..0] == [];
  }

  /** On a string of digits too short for it, the pattern matches nowhere. */
  lemma {:induction false} ReplaceShortDigits(d: string, gs: Pattern, tpl: seq<Piece>)
    requires AllDigits(d) && WellFormed(gs) && ValidTemplate(tpl, |gs|)
    requires |d| < MinLength(gs)
    ensures Replace(d, gs, tpl) == d
  {
    DigitsMatchNowhere(d, gs);
    ReplaceWithoutMatch(d, gs, tpl);
  }

  lemma {:induction false} ShortBlockHasNoMatch(a: string, sep: char, t: string, gs: Pattern, i: nat)
    requires AllDigits(a) && |a| < MinLength(gs) && !IsDigit(sep) && WellFormed(gs)
    requires i <= |a|
    ensures MatchPrefix((a + [sep] + t)[i..], gs).None?
  {
    var u := (a + [sep] + t)[i..];
    assert u == a[i..] + ([sep] + t);
    assert RunLength([sep] + t) == 0;
    RunLengthAppend(a[i..], [sep] + t);
    MatchPrefixSpec(u, gs);
  }

  lemma {:induction false} ShortBlockSkipped(a: string, sep: char, t: string, gs: Pattern)
    requires AllDigits(a) && |a| < MinLength(gs) && !IsDigit(sep) && WellFormed(gs)
    ensures FirstMatch(a + [sep] + t, 0, gs) == FirstMatch(a + [sep] + t, |a| + 1, gs)
  {
    var s := a + [sep] + t;
    forall i | 0 <= i < |a| + 1 ensures MatchPrefix(s[i..], gs).None? {
      ShortBlockHasNoMatch(a, sep, t, gs, i);
    }
    FirstMatchSkip(s, 0, |a| + 1, gs);
  }

  lemma {:induction false} ReplaceAfterPrefixNone(pre: string, t: string, gs: Pattern, tpl: seq<Piece>)
    requires ValidTemplate(tpl, |gs|)
    requires FirstMatch(pre + t, 0, gs) == FirstMatch(pre + t, |pre|, gs)
    requires FirstMatch(t, 0, gs).None?
    ensures Replace(pre + t, gs, tpl) == pre + Replace(t, gs, tpl)
  {
    FirstMatchShift(pre, t, 0, gs);
    assert |pre| + 0 == |pre|;
    ReplaceWithoutMatch(t, gs, tpl);
    ReplaceWithoutMatch(pre + t, gs, tpl);
  }

  lemma {:induction false} ReplaceShifted(pre: string, t: string, gs: Pattern, tpl: seq<Piece>, q: nat, caps: seq<string>)
    requires ValidTemplate(tpl, |gs|)
    requires FirstMatch(t, 0, gs) == Some(Match(q, caps))
    requires FirstMatch(pre + t, 0, gs) == Some(Match(|pre| + q, caps))
    ensures Replace(pre + t, gs, tpl) == pre + Replace(t, gs, tpl)
  {
    ReplaceAtMatch(t, gs, tpl, q, caps);
    ReplaceAtMatch(pre + t, gs, tpl, |pre| + q, caps);
    SpliceShift(pre, t, q, Width(caps), Render(tpl, caps));
  }

  /** Splicing `y` into `pre + t` past `pre` is splicing it into `t`. */
  lemma {:induction false} SpliceShift(pre: string, t: string, q: nat, w: nat, y: string)
    requires q + w <= |t|
    ensures (pre + t)[..|pre| + q] + y + (pre + t)[|pre| + q + w..] == pre + (t[..q] + y + t[q + w..])
  {
    assert (pre + t)[..|pre| + q] == pre + t[..q];
    assert (pre + t)[|pre| + q + w..] == t[q + w..];
  }

  lemma {:induction false} ReplaceAfterPrefixSome(pre: string, t: string, gs: Pattern, tpl: seq<Piece>)
    requires ValidTemplate(tpl, |gs|)
    requires FirstMatch(pre + t, 0, gs) == FirstMatch(pre + t, |pre|, gs)
    requires FirstMatch(t, 0, gs).Some?
    ensures Replace(pre + t, gs, tpl) == pre + Replace(t, gs, tpl)
  {
    FirstMatchShift(pre, t, 0, gs);
    assert |pre| + 0 == |pre|;
    var m := FirstMatch(t, 0, gs).value;
    ReplaceShifted(pre, t, gs, tpl, m.start, m.groups);
  }

  /** A block of fewer digits than the pattern needs, closed by a non-digit,
    * is passed over: the replace acts on what follows. */
  lemma {:induction false} ReplaceSkipsShortBlock(a: string, sep: char, t: string, gs: Pattern, tpl: seq<Piece>)
    requires AllDigits(a) && |a| < MinLength(gs) && !IsDigit(sep)
    requires WellFormed(gs) && ValidTemplate(tpl, |gs|)
    ensures Replace(a + [sep] + t, gs, tpl) == a + [sep] + Replace(t, gs, tpl)
  {
    ShortBlockSkipped(a, sep, t, gs);
    assert a + [sep] + t == (a + [sep]) + t;
    if FirstMatch(t, 0, gs).None? {
      ReplaceAfterPrefixNone(a + [sep], t, gs, tpl);
    } else {
      ReplaceAfterPrefixSome(a + [sep], t, gs, tpl);
    }
  }
}
