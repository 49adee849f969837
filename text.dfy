/** Strings as the dashboard renderer uses them: `String.prototype.indexOf` and
    `String.prototype.replace` with a string pattern (first occurrence only), the
    decimal text JavaScript gives a number, and a chain of placeholder substitutions. */
module Text {

  datatype Option<T> = None | Some(value: T)

  /** `pat` occurs in `s` at index `k`. */
  predicate OccursAt(s: string, pat: string, k: int)
  {
    0 <= k && k + |pat| <= |s| && s[k..k + |pat|] == pat
  }

  /** `k` is the first index at which `pat` occurs in `s`. */
  predicate FirstOccurrence(s: string, pat: string, k: int)
  {
    OccursAt(s, pat, k) && forall j :: 0 <= j < k ==> !OccursAt(s, pat, j)
  }

  /** `s.indexOf(pat, from)`: the first occurrence of `pat` at or after `from`. */
  function IndexOf(s: string, pat: string, from: nat): (r: Option<nat>)
    ensures r.Some? ==> from <= r.value && OccursAt(s, pat, r.value)
    ensures r.Some? ==> forall j :: from <= j < r.value ==> !OccursAt(s, pat, j)
    ensures r.None? ==> forall j :: from <= j ==> !OccursAt(s, pat, j)
    decreases |s| - from
  {
    if from + |pat| > |s| then None
    else if s[from..from + |pat|] == pat then Some(from)
    else IndexOf(s, pat, from + 1)
  }

  /** `s.replace(pat, rep)` with a string pattern: only the first occurrence is
      replaced, and a text without the pattern comes back unchanged. */
  function ReplaceFirst(s: string, pat: string, rep: string): string
  {
    match IndexOf(s, pat, 0)
    case None => s
    case Some(k) => s[..k] + rep + s[k + |pat|..]
  }

  /** Text without a `{`, as the grid markup and the decimal text of numbers are. */
  predicate Plain(s: string)
  {
    '{' !in s
  }

  /** `{{` starts at index `j` of `s`. */
  predicate DoubleBraceAt(s: string, j: int)
  {
    0 <= j && j + 1 < |s| && s[j] == '{' && s[j + 1] == '{'
  }

  /** Text in which no placeholder can start: it has no `{{`, and it does not
      end with a `{` that a following `{` would complete. Single braces, as in
      a CSS rule `.today { font-weight: bold }`, are allowed. */
  predicate Safe(s: string)
  {
    (forall j :: 0 <= j < |s| ==> !DoubleBraceAt(s, j)) && (|s| > 0 ==> s[|s| - 1] != '{')
  }

  /** A pattern that starts with `{{`, as every placeholder `{{name}}` does. */
  predicate BracePattern(pat: string)
  {
    |pat| >= 2 && pat[0] == '{' && pat[1] == '{'
  }

  lemma PlainIsSafe(s: string)
    requires Plain(s)
    ensures Safe(s)
  {
    forall j | 0 <= j < |s|
      ensures s[j] != '{'
    {
      assert s[j] in s;
    }
  }

  /** Safe text stays safe when joined: no `{{` can form across the seam. */
  lemma SafeConcat(a: string, b: string)
    requires Safe(a) && Safe(b)
    ensures Safe(a + b)
  {
    var t := a + b;
    forall j | 0 <= j < |t|
      ensures !DoubleBraceAt(t, j)
    {
      if j + 1 < |a| {
        assert !DoubleBraceAt(a, j);
        assert t[j] == a[j] && t[j + 1] == a[j + 1];
      } else if j + 1 == |a| {
        assert t[j] == a[|a| - 1];
      } else if j + 1 < |t| {
        assert !DoubleBraceAt(b, j - |a|);
        assert t[j] == b[j - |a|] && t[j + 1] == b[j - |a| + 1];
      }
    }
    if |b| == 0 {
      assert t == a;
    } else {
      assert t[|t| - 1] == b[|b| - 1];
    }
  }

  /** The first occurrence is what `indexOf` finds. */
  lemma IndexOfFindsFirst(s: string, pat: string, k: int)
    requires FirstOccurrence(s, pat, k)
    ensures IndexOf(s, pat, 0) == Some(k)
  {
  }

  lemma IndexOfFindsNothing(s: string, pat: string)
    requires forall j :: !OccursAt(s, pat, j)
    ensures IndexOf(s, pat, 0) == None
  {
  }

  /** `replace` rewrites the first occurrence only: the text before it and
      after it is kept character for character. */
  lemma ReplaceFirstAt(s: string, pat: string, rep: string, k: int)
    requires FirstOccurrence(s, pat, k)
    ensures ReplaceFirst(s, pat, rep) == s[..k] + rep + s[k + |pat|..]
    ensures ReplaceFirst(s, pat, rep)[..k] == s[..k]
  {
    IndexOfFindsFirst(s, pat, k);
  }

  /** A text without the pattern comes back unchanged. */
  lemma ReplaceFirstAbsent(s: string, pat: string, rep: string)
    requires forall j :: !OccursAt(s, pat, j)
    ensures ReplaceFirst(s, pat, rep) == s
  {
    IndexOfFindsNothing(s, pat);
  }

  /** Replacing after a safe prefix leaves the prefix alone: the first
      occurrence of a placeholder lies in the rest of the text. */
  lemma ReplaceFirstAfterSafe(a: string, s: string, pat: string, rep: string)
    requires Safe(a) && BracePattern(pat)
    ensures ReplaceFirst(a + s, pat, rep) == a + ReplaceFirst(s, pat, rep)
  {
    SafePrefixClear(a, s, pat);
    ReplaceFirstAfterClear(a, s, pat, rep);
  }

  /** Replacing after a prefix in which no occurrence starts leaves the prefix alone. */
  lemma ReplaceFirstAfterClear(a: string, s: string, pat: string, rep: string)
    requires forall j :: 0 <= j < |a| ==> !OccursAt(a + s, pat, j)
    ensures ReplaceFirst(a + s, pat, rep) == a + ReplaceFirst(s, pat, rep)
  {
    OccurrencesShift(a, s, pat);
    match IndexOf(s, pat, 0)
    case None =>
      IndexOfFindsNothing(a + s, pat);
    case Some(k) =>
      assert FirstOccurrence(a + s, pat, |a| + k) by {
        forall j | 0 <= j < |a| + k
          ensures !OccursAt(a + s, pat, j)
        {
          if |a| <= j {
            assert !OccursAt(s, pat, j - |a|);
          }
        }
      }
      SpliceAfterPrefix(a, s, pat, rep, k);
  }

  /** When the first occurrence in `a + s` is the first one of `s`, shifted,
      replacing in `a + s` is replacing in `s` behind `a`. */
  lemma SpliceAfterPrefix(a: string, s: string, pat: string, rep: string, k: nat)
    requires FirstOccurrence(a + s, pat, |a| + k) && FirstOccurrence(s, pat, k)
    ensures ReplaceFirst(a + s, pat, rep) == a + ReplaceFirst(s, pat, rep)
  {
    ReplaceFirstAt(a + s, pat, rep, |a| + k);
    ReplaceFirstAt(s, pat, rep, k);
    SpliceShift(a, s, ReplaceFirst(a + s, pat, rep), ReplaceFirst(s, pat, rep), k, |pat|, rep);
  }

  /** Splicing at index `|a| + k` of `a + s` is splicing at index `k` of `s`. */
  lemma SpliceShift(a: string, s: string, x: string, y: string, k: nat, n: nat, rep: string)
    requires k + n <= |s|
    requires x == (a + s)[..|a| + k] + rep + (a + s)[|a| + k + n..]
    requires y == s[..k] + rep + s[k + n..]
    ensures x == a + y
  {
    assert (a + s)[..|a| + k] == a + s[..k];
    assert (a + s)[|a| + k + n..] == s[k + n..];
  }

  /** No placeholder starts inside a safe prefix. */
  lemma SafePrefixClear(a: string, s: string, pat: string)
    requires Safe(a) && BracePattern(pat)
    ensures forall j :: 0 <= j < |a| ==> !OccursAt(a + s, pat, j)
  {
    var t := a + s;
    forall j | 0 <= j < |a|
      ensures !OccursAt(t, pat, j)
    {
      assert t[j] == a[j];
      if j + 1 < |a| {
        assert !DoubleBraceAt(a, j);
        assert t[j + 1] == a[j + 1];
      }
      if j + |pat| <= |t| {
        assert t[j..j + |pat|][0] == t[j] && t[j..j + |pat|][1] == t[j + 1];
      }
    }
  }

  /** Behind a prefix, a pattern occurs exactly where it occurs in the rest,
      shifted by the prefix's length. */
  lemma OccurrencesShift(a: string, s: string, pat: string)
    ensures forall j :: |a| <= j ==> (OccursAt(a + s, pat, j) <==> OccursAt(s, pat, j - |a|))
  {
    var t := a + s;
    forall j | |a| <= j
      ensures OccursAt(t, pat, j) <==> OccursAt(s, pat, j - |a|)
    {
      if j + |pat| <= |t| {
        assert t[j..j + |pat|] == s[j - |a|..j - |a| + |pat|];
      }
    }
  }

  /** A placeholder `{{name}}` whose name holds no brace, as every placeholder
      of the dashboard template does. */
  predicate Token(pat: string)
  {
    |pat| >= 4 && pat[0] == '{' && pat[1] == '{' && pat[|pat| - 2] == '}' && pat[|pat| - 1] == '}'
    && forall i :: 2 <= i < |pat| - 2 ==> pat[i] != '{' && pat[i] != '}'
  }

  /** `{{name}}` is a token when `name` holds no brace. */
  lemma TokenOf(name: string)
    requires forall i :: 0 <= i < |name| ==> name[i] != '{' && name[i] != '}'
    ensures Token("{{" + name + "}}")
  {
    var t := "{{" + name + "}}";
    forall i | 2 <= i < |t| - 2
      ensures t[i] != '{' && t[i] != '}'
    {
      assert t[i] == name[i - 2];
    }
  }

  /** The placeholder `{{name}}`. */
  function Braced(name: string): string
  {
    "{{" + name + "}}"
  }

  /** The name can be read back from its placeholder. */
  lemma BracedName(name: string)
    ensures |Braced(name)| == |name| + 4 && Braced(name)[2..|Braced(name)| - 2] == name
  {
  }

  /** One token never occurs inside another: a token `pat` starts nowhere in a
      different token `q`, whatever follows `q`. */
  lemma TokenMismatch(q: string, b: string, pat: string)
    requires Token(q) && Token(pat) && q != pat
    ensures forall j :: 0 <= j < |q| ==> !OccursAt(q + b, pat, j)
  {
    var t := q + b;
    forall j | 0 <= j < |q|
      ensures !OccursAt(t, pat, j)
    {
      if j + |pat| <= |t| {
        var w := t[j..j + |pat|];
        if j == 0 {
          if |pat| < |q| {
            assert w[|pat| - 2] == q[|pat| - 2] != pat[|pat| - 2];
          } else if |pat| == |q| {
            assert w == q;
          } else {
            assert w[|q| - 2] == q[|q| - 2] != pat[|q| - 2];
          }
        } else if j == 1 {
          assert w[1] == q[2] != pat[1];
        } else {
          assert w[0] == q[j] != pat[0];
        }
      }
    }
  }

  /** Replacing a token after a different token leaves that token alone. */
  lemma ReplaceFirstAfterToken(q: string, s: string, pat: string, rep: string)
    requires Token(q) && Token(pat) && q != pat
    ensures ReplaceFirst(q + s, pat, rep) == q + ReplaceFirst(s, pat, rep)
  {
    TokenMismatch(q, s, pat);
    ReplaceFirstAfterClear(q, s, pat, rep);
  }

  /** A placeholder that sits right after a safe prefix is the one replaced. */
  lemma ReplaceFirstAtSafePrefix(a: string, pat: string, b: string, rep: string)
    requires Safe(a) && BracePattern(pat)
    ensures ReplaceFirst(a + pat + b, pat, rep) == a + rep + b
  {
    assert a + pat + b == a + (pat + b);
    ReplaceFirstAfterSafe(a, pat + b, pat, rep);
    assert (pat + b)[0..|pat|] == pat;
    IndexOfFindsFirst(pat + b, pat, 0);
    assert (pat + b)[|pat|..] == b;
  }

  // ---------------------------------------------------------------------------
  // Numbers as text

  predicate IsDigits(s: string)
  {
    forall i :: 0 <= i < |s| ==> '0' <= s[i] <= '9'
  }

  function DigitChar(d: int): (c: char)
    requires 0 <= d < 10
    ensures '0' <= c <= '9' && c as int - '0' as int == d
  {
    ('0' as int + d) as char
  }

  /** `String(n)` for a non-negative integer: its decimal digits, no leading zero. */
  function NatToDecimal(n: nat): (s: string)
    ensures |s| >= 1 && IsDigits(s)
    ensures |s| > 1 ==> s[0] != '0'
    decreases n
  {
    if n < 10 then [DigitChar(n)] else NatToDecimal(n / 10) + [DigitChar(n % 10)]
  }

  /** The number a string of decimal digits denotes. */
  function DecimalValue(s: string): nat
    requires IsDigits(s)
  {
    if s == [] then 0
    else 10 * DecimalValue(s[..|s| - 1]) + (s[|s| - 1] as int - '0' as int)
  }

  /** Reading back the decimal text of `n` gives `n`. */
  lemma {:induction false} DecimalRoundTrip(n: nat)
    ensures DecimalValue(NatToDecimal(n)) == n
    decreases n
  {
    if n >= 10 {
      DecimalRoundTrip(n / 10);
      var s := NatToDecimal(n);
      assert s[..|s| - 1] == NatToDecimal(n / 10);
    }
  }

  /** `String(x)` for an integer: a minus sign exactly for negative values. */
  function IntToDecimal(x: int): (s: string)
    ensures |s| >= 1 && Plain(s)
    ensures (s[0] == '-') <==> x < 0
    ensures x >= 0 ==> IsDigits(s)
  {
    if x < 0 then "-" + NatToDecimal(-x) else NatToDecimal(x)
  }

  // ---------------------------------------------------------------------------
  // Chains of substitutions

  /** One `.replace(placeholder, value)` step of the renderer. */
  datatype Substitution = Substitution(placeholder: string, value: string)

  /** `s.replace(p1, v1).replace(p2, v2)...` in the order of `subs`. */
  function ApplyAll(s: string, subs: seq<Substitution>): string
  {
    if subs == [] then s
    else
      var last := subs[|subs| - 1];
      ReplaceFirst(ApplyAll(s, subs[..|subs| - 1]), last.placeholder, last.value)
  }

  /** Running two chains one after the other is running their concatenation. */
  lemma {:induction false} ApplyAllAppend(s: string, a: seq<Substitution>, b: seq<Substitution>)
    ensures ApplyAll(s, a + b) == ApplyAll(ApplyAll(s, a), b)
    decreases |b|
  {
    if b == [] {
      assert a + b == a;
    } else {
      assert (a + b)[..|a + b| - 1] == a + b[..|b| - 1];
      ApplyAllAppend(s, a, b[..|b| - 1]);
    }
  }

  /** A template in which no placeholder of the chain occurs comes back verbatim:
      unmatched text, including unknown `{{...}}` names, passes through. */
  lemma {:induction false} ApplyAllAbsent(s: string, subs: seq<Substitution>)
    requires forall k, j :: 0 <= k < |subs| ==> !OccursAt(s, subs[k].placeholder, j)
    ensures ApplyAll(s, subs) == s
    decreases |subs|
  {
    if subs != [] {
      ApplyAllAbsent(s, subs[..|subs| - 1]);
    }
  }

  /** A safe prefix is never touched by a chain of placeholder substitutions. */
  lemma {:induction false} ApplyAllAfterSafe(a: string, s: string, subs: seq<Substitution>)
    requires Safe(a)
    requires forall k :: 0 <= k < |subs| ==> BracePattern(subs[k].placeholder)
    ensures ApplyAll(a + s, subs) == a + ApplyAll(s, subs)
    decreases |subs|
  {
    if subs != [] {
      var last := subs[|subs| - 1];
      ApplyAllAfterSafe(a, s, subs[..|subs| - 1]);
      ReplaceFirstAfterSafe(a, ApplyAll(s, subs[..|subs| - 1]), last.placeholder, last.value);
    }
  }

  // ---------------------------------------------------------------------------
  // Templates laid out in substitution order

  /** `parts[0] + xs[0] + parts[1] + xs[1] + ... + xs[n-1] + parts[n]`. */
  function Interleave(parts: seq<string>, xs: seq<string>): string
    requires |parts| == |xs| + 1
  {
    if xs == [] then parts[0] else parts[0] + xs[0] + Interleave(parts[1..], xs[1..])
  }

  lemma {:induction false} InterleaveSafe(parts: seq<string>, xs: seq<string>)
    requires |parts| == |xs| + 1
    requires forall k :: 0 <= k < |parts| ==> Safe(parts[k])
    requires forall k :: 0 <= k < |xs| ==> Safe(xs[k])
    ensures Safe(Interleave(parts, xs))
    decreases |xs|
  {
    if xs != [] {
      InterleaveSafe(parts[1..], xs[1..]);
      SafeConcat(parts[0], xs[0]);
      SafeConcat(parts[0] + xs[0], Interleave(parts[1..], xs[1..]));
    }
  }

  /** Cutting an interleaving at its `j`-th inserted string. */
  lemma {:induction false} InterleaveSplit(parts: seq<string>, xs: seq<string>, j: nat)
    requires |parts| == |xs| + 1 && j < |xs|
    ensures Interleave(parts, xs)
         == Interleave(parts[..j + 1], xs[..j]) + xs[j] + Interleave(parts[j + 1..], xs[j + 1..])
    decreases j
  {
    if j == 0 {
      assert xs[1..] == xs[j + 1..];
    } else {
      InterleaveSplit(parts[1..], xs[1..], j - 1);
      assert parts[1..][..j] == parts[..j + 1][1..];
      assert xs[1..][..j - 1] == xs[..j][1..];
      assert parts[1..][j..] == parts[j + 1..];
      assert xs[1..][j..] == xs[j + 1..];
    }
  }

  function Pair(pats: seq<string>, vals: seq<string>): (subs: seq<Substitution>)
    requires |pats| == |vals|
    ensures |subs| == |pats|
  {
    seq(|pats|, k requires 0 <= k < |pats| => Substitution(pats[k], vals[k]))
  }

  /** One step of filling an interleaved template: the `j`-th placeholder, which
      follows only safe text, receives the `j`-th value. */
  lemma InterleaveFillStep(parts: seq<string>, pats: seq<string>, vals: seq<string>, j: nat)
    requires |parts| == |pats| + 1 && |pats| == |vals| && j < |pats|
    requires forall k :: 0 <= k < |parts| ==> Safe(parts[k])
    requires forall k :: 0 <= k < |vals| ==> Safe(vals[k])
    requires BracePattern(pats[j])
    ensures ReplaceFirst(Interleave(parts, vals[..j] + pats[j..]), pats[j], vals[j])
         == Interleave(parts, vals[..j + 1] + pats[j + 1..])
  {
    var mix := vals[..j] + pats[j..];
    var next := vals[..j + 1] + pats[j + 1..];
    InterleaveSplit(parts, mix, j);
    InterleaveSplit(parts, next, j);
    assert mix[..j] == vals[..j] == next[..j];
    assert mix[j + 1..] == pats[j + 1..] == next[j + 1..];
    assert mix[j] == pats[j] && next[j] == vals[j];
    var a := Interleave(parts[..j + 1], vals[..j]);
    var b := Interleave(parts[j + 1..], pats[j + 1..]);
    InterleaveSafe(parts[..j + 1], vals[..j]);
    ReplaceFirstAtSafePrefix(a, pats[j], b, vals[j]);
  }

  /** A template whose placeholders appear once each, in the order they are
      substituted, between pieces of safe text, receives every value in
      its own placeholder's place. */
  lemma InterleaveFilled(parts: seq<string>, pats: seq<string>, vals: seq<string>)
    requires |parts| == |pats| + 1 && |pats| == |vals|
    requires forall k :: 0 <= k < |parts| ==> Safe(parts[k])
    requires forall k :: 0 <= k < |vals| ==> Safe(vals[k])
    requires forall k :: 0 <= k < |pats| ==> BracePattern(pats[k])
    ensures ApplyAll(Interleave(parts, pats), Pair(pats, vals)) == Interleave(parts, vals)
  {
    FilledUpTo(parts, pats, vals, |pats|);
    assert Pair(pats, vals)[..|pats|] == Pair(pats, vals);
    assert vals[..|pats|] + pats[|pats|..] == vals;
  }

  /** After the first `j` steps, the first `j` placeholders hold their values. */
  lemma {:induction false} FilledUpTo(parts: seq<string>, pats: seq<string>, vals: seq<string>, j: nat)
    requires |parts| == |pats| + 1 && |pats| == |vals| && j <= |pats|
    requires forall k :: 0 <= k < |parts| ==> Safe(parts[k])
    requires forall k :: 0 <= k < |vals| ==> Safe(vals[k])
    requires forall k :: 0 <= k < |pats| ==> BracePattern(pats[k])
    ensures ApplyAll(Interleave(parts, pats), Pair(pats, vals)[..j]) == Interleave(parts, vals[..j] + pats[j..])
  {
    var subs := Pair(pats, vals);
    var t := Interleave(parts, pats);
    if j == 0 {
      assert vals[..0] + pats[0..] == pats;
      assert subs[..0] == [];
    } else {
      var i := j - 1;
      calc {
        ApplyAll(t, subs[..j]);
        { assert subs[..j] == subs[..i] + [subs[i]];
          ApplyAllSnoc(t, subs[..i], subs[i]); }
        ReplaceFirst(ApplyAll(t, subs[..i]), subs[i].placeholder, subs[i].value);
        { FilledUpTo(parts, pats, vals, i); }
        ReplaceFirst(Interleave(parts, vals[..i] + pats[i..]), pats[i], vals[i]);
        { InterleaveFillStep(parts, pats, vals, i); }
        Interleave(parts, vals[..j] + pats[j..]);
      }
    }
  }

  /** One more step of a chain is one more `replace`. */
  lemma ApplyAllSnoc(s: string, subs: seq<Substitution>, x: Substitution)
    ensures ApplyAll(s, subs + [x]) == ReplaceFirst(ApplyAll(s, subs), x.placeholder, x.value)
  {
    assert (subs + [x])[..|subs|] == subs;
  }

  /** Every placeholder of the chain is a `{{name}}` token. */
  predicate AllBraced(subs: seq<Substitution>)
  {
    forall k :: 0 <= k < |subs| ==> Token(subs[k].placeholder)
  }

  lemma AppendBraced(a: seq<Substitution>, b: seq<Substitution>)
    requires AllBraced(a) && AllBraced(b)
    ensures AllBraced(a + b)
  {
    forall k | 0 <= k < |a + b|
      ensures Token((a + b)[k].placeholder)
    {
      if k >= |a| {
        assert (a + b)[k] == b[k - |a|];
      }
    }
  }

  /** A chain run one `replace` at a time. */
  method ReplaceChain(s: string, subs: seq<Substitution>) returns (r: string)
    ensures r == ApplyAll(s, subs)
  {
    r := s;
    for k := 0 to |subs|
      invariant r == ApplyAll(s, subs[..k])
    {
      r := ReplaceFirst(r, subs[k].placeholder, subs[k].value);
      ApplyAllSnoc(s, subs[..k], subs[k]);
      assert subs[..k] + [subs[k]] == subs[..k + 1];
    }
    assert subs[..|subs|] == subs;
  }

  /** `parts.join('')`. */
  function Concat(parts: seq<string>): string
  {
    if parts == [] then "" else Concat(parts[..|parts| - 1]) + parts[|parts| - 1]
  }

  lemma ConcatSnoc(parts: seq<string>, x: string)
    ensures Concat(parts + [x]) == Concat(parts) + x
  {
    assert (parts + [x])[..|parts|] == parts;
  }

  /** Joining two runs of pieces is joining each and putting the results together. */
  lemma {:induction false} ConcatAppend(x: seq<string>, y: seq<string>)
    ensures Concat(x + y) == Concat(x) + Concat(y)
    decreases |y|
  {
    if y == [] {
      assert x + y == x;
    } else {
      var init, last := y[..|y| - 1], y[|y| - 1];
      calc {
        Concat(x + y);
        { assert x + y == (x + init) + [last]; ConcatSnoc(x + init, last); }
        Concat(x + init) + last;
        { ConcatAppend(x, init); }
        Concat(x) + Concat(init) + last;
        { assert y == init + [last]; ConcatSnoc(init, last); }
        Concat(x) + Concat(y);
      }
    }
  }

  function Placeholders(subs: seq<Substitution>): (pats: seq<string>)
    ensures |pats| == |subs|
  {
    seq(|subs|, k requires 0 <= k < |subs| => subs[k].placeholder)
  }

  function Values(subs: seq<Substitution>): (vals: seq<string>)
    ensures |vals| == |subs|
  {
    seq(|subs|, k requires 0 <= k < |subs| => subs[k].value)
  }

  /** A chain run over a template that lists its placeholders in chain order,
      between pieces of safe text, puts every value in its place. */
  lemma ChainFillsTemplate(parts: seq<string>, subs: seq<Substitution>)
    requires |parts| == |subs| + 1
    requires forall k :: 0 <= k < |parts| ==> Safe(parts[k])
    requires AllBraced(subs)
    requires forall k :: 0 <= k < |subs| ==> Safe(subs[k].value)
    ensures ApplyAll(Interleave(parts, Placeholders(subs)), subs) == Interleave(parts, Values(subs))
  {
    InterleaveFilled(parts, Placeholders(subs), Values(subs));
    assert Pair(Placeholders(subs), Values(subs)) == subs;
  }

  // ---------------------------------------------------------------------------
  // Templates with their placeholders in any order

  /** What may stand in a slot of the template before the placeholder being
      replaced without catching the replacement: safe text, or another token. */
  predicate Passable(x: string, pat: string)
  {
    Safe(x) || (Token(x) && x != pat)
  }

  /** Replacing a token finds the first slot that holds it, when every slot
      before that one is passable. */
  lemma {:induction false} ReplaceInSlots(parts: seq<string>, slots: seq<string>, pat: string, rep: string, i: nat)
    requires |parts| == |slots| + 1 && i < |slots|
    requires forall k :: 0 <= k < |parts| ==> Safe(parts[k])
    requires Token(pat) && slots[i] == pat
    requires forall k :: 0 <= k < i ==> Passable(slots[k], pat)
    ensures ReplaceFirst(Interleave(parts, slots), pat, rep) == Interleave(parts, slots[i := rep])
    decreases i
  {
    var rest := Interleave(parts[1..], slots[1..]);
    var filled := slots[i := rep];
    if i == 0 {
      ReplaceFirstAtSafePrefix(parts[0], pat, rest, rep);
      assert filled[1..] == slots[1..];
    } else {
      calc {
        ReplaceFirst(Interleave(parts, slots), pat, rep);
        { assert Interleave(parts, slots) == parts[0] + (slots[0] + rest); }
        ReplaceFirst(parts[0] + (slots[0] + rest), pat, rep);
        { ReplaceFirstAfterSafe(parts[0], slots[0] + rest, pat, rep); }
        parts[0] + ReplaceFirst(slots[0] + rest, pat, rep);
        { ReplaceFirstAfterPassable(slots[0], rest, pat, rep); }
        parts[0] + (slots[0] + ReplaceFirst(rest, pat, rep));
        { ReplaceInSlots(parts[1..], slots[1..], pat, rep, i - 1); }
        parts[0] + (slots[0] + Interleave(parts[1..], slots[1..][i - 1 := rep]));
        { assert slots[1..][i - 1 := rep] == filled[1..] && filled[0] == slots[0]; }
        Interleave(parts, filled);
      }
    }
  }

  lemma ReplaceFirstAfterPassable(x: string, s: string, pat: string, rep: string)
    requires Token(pat) && Passable(x, pat)
    ensures ReplaceFirst(x + s, pat, rep) == x + ReplaceFirst(s, pat, rep)
  {
    if Safe(x) {
      ReplaceFirstAfterSafe(x, s, pat, rep);
    } else {
      ReplaceFirstAfterToken(x, s, pat, rep);
    }
  }

  /** A token none of whose slots holds it occurs nowhere in the template. */
  lemma {:induction false} AbsentFromSlots(parts: seq<string>, slots: seq<string>, pat: string)
    requires |parts| == |slots| + 1
    requires forall k :: 0 <= k < |parts| ==> Safe(parts[k])
    requires Token(pat)
    requires forall k :: 0 <= k < |slots| ==> Passable(slots[k], pat)
    ensures forall j :: !OccursAt(Interleave(parts, slots), pat, j)
    decreases |slots|
  {
    if slots == [] {
      SafePrefixClear(parts[0], [], pat);
      assert parts[0] + [] == parts[0];
    } else {
      var rest := Interleave(parts[1..], slots[1..]);
      AbsentFromSlots(parts[1..], slots[1..], pat);
      if Safe(slots[0]) {
        SafePrefixClear(slots[0], rest, pat);
      } else {
        TokenMismatch(slots[0], rest, pat);
      }
      AbsentAfterClear(slots[0], rest, pat);
      SafePrefixClear(parts[0], slots[0] + rest, pat);
      AbsentAfterClear(parts[0], slots[0] + rest, pat);
      assert Interleave(parts, slots) == parts[0] + (slots[0] + rest);
    }
  }

  lemma AbsentAfterClear(a: string, s: string, pat: string)
    requires forall j :: 0 <= j < |a| ==> !OccursAt(a + s, pat, j)
    requires forall j :: !OccursAt(s, pat, j)
    ensures forall j :: !OccursAt(a + s, pat, j)
  {
    OccurrencesShift(a, s, pat);
    forall j | |a| <= j
      ensures !OccursAt(a + s, pat, j)
    {
      assert !OccursAt(s, pat, j - |a|);
    }
  }

  /** `order` names the chain step whose placeholder each slot of the template
      holds: steps below `n`, no step twice. A step may have no slot. */
  predicate Arrangement(order: seq<nat>, n: nat)
  {
    (forall i :: 0 <= i < |order| ==> order[i] < n)
    && forall i, i' :: 0 <= i < i' < |order| ==> order[i] != order[i']
  }

  /** The slot contents `xs[order[0]], xs[order[1]], ...`. */
  function Arrange(xs: seq<string>, order: seq<nat>): seq<string>
    requires forall i :: 0 <= i < |order| ==> order[i] < |xs|
  {
    seq(|order|, i requires 0 <= i < |order| => xs[order[i]])
  }

  /** The slots after the first `j` steps of the chain: a slot whose step has
      run holds that step's value, any other still its placeholder. */
  function Stage(pats: seq<string>, vals: seq<string>, order: seq<nat>, j: nat): seq<string>
    requires |pats| == |vals| && forall i :: 0 <= i < |order| ==> order[i] < |pats|
  {
    seq(|order|, i requires 0 <= i < |order| => if order[i] < j then vals[order[i]] else pats[order[i]])
  }

  /** No two steps of the chain share a placeholder. */
  predicate DistinctPatterns(pats: seq<string>)
  {
    forall k, k' :: 0 <= k < k' < |pats| ==> pats[k] != pats[k']
  }

  /** Step `j` of the chain fills the one slot that holds its placeholder, or
      changes nothing when the template has no such slot. */
  lemma FillStep(parts: seq<string>, pats: seq<string>, vals: seq<string>, order: seq<nat>, j: nat)
    requires |parts| == |order| + 1 && |pats| == |vals| && j < |pats|
    requires Arrangement(order, |pats|) && DistinctPatterns(pats)
    requires forall k :: 0 <= k < |parts| ==> Safe(parts[k])
    requires forall k :: 0 <= k < |vals| ==> Safe(vals[k])
    requires forall k :: 0 <= k < |pats| ==> Token(pats[k])
    ensures ReplaceFirst(Interleave(parts, Stage(pats, vals, order, j)), pats[j], vals[j])
         == Interleave(parts, Stage(pats, vals, order, j + 1))
  {
    var before := Stage(pats, vals, order, j);
    if i :| 0 <= i < |order| && order[i] == j {
      StagePassable(pats, vals, order, j, i);
      ReplaceInSlots(parts, before, pats[j], vals[j], i);
      StageAdvance(pats, vals, order, j, i);
    } else {
      StagePassable(pats, vals, order, j, |order|);
      AbsentFromSlots(parts, before, pats[j]);
      ReplaceFirstAbsent(Interleave(parts, before), pats[j], vals[j]);
      StageSkips(pats, vals, order, j);
    }
  }

  /** Before step `j`, every slot below `m` that does not hold step `j`'s
      placeholder is passable for it. */
  lemma StagePassable(pats: seq<string>, vals: seq<string>, order: seq<nat>, j: nat, m: nat)
    requires |pats| == |vals| && j < |pats| && m <= |order|
    requires Arrangement(order, |pats|) && DistinctPatterns(pats)
    requires forall k :: 0 <= k < |vals| ==> Safe(vals[k])
    requires forall k :: 0 <= k < |pats| ==> Token(pats[k])
    requires forall k :: 0 <= k < m ==> order[k] != j
    ensures forall k :: 0 <= k < m ==> Passable(Stage(pats, vals, order, j)[k], pats[j])
  {
    var before := Stage(pats, vals, order, j);
    forall k | 0 <= k < m
      ensures Passable(before[k], pats[j])
    {
      var o := order[k];
      if o < j {
        assert before[k] == vals[o];
      } else {
        assert before[k] == pats[o];
        assert j < o;
      }
    }
  }

  /** Filling slot `i`, the one holding step `j`'s placeholder, gives stage `j + 1`. */
  lemma StageAdvance(pats: seq<string>, vals: seq<string>, order: seq<nat>, j: nat, i: nat)
    requires |pats| == |vals| && j < |pats| && i < |order| && order[i] == j
    requires Arrangement(order, |pats|)
    ensures Stage(pats, vals, order, j)[i := vals[j]] == Stage(pats, vals, order, j + 1)
  {
  }

  /** A step with no slot leaves the stage as it is. */
  lemma StageSkips(pats: seq<string>, vals: seq<string>, order: seq<nat>, j: nat)
    requires |pats| == |vals| && j < |pats|
    requires Arrangement(order, |pats|)
    requires forall k :: 0 <= k < |order| ==> order[k] != j
    ensures Stage(pats, vals, order, j) == Stage(pats, vals, order, j + 1)
  {
  }

  /** After the first `j` steps the template holds stage `j`. */
  lemma {:induction false} FilledInStages(parts: seq<string>, pats: seq<string>, vals: seq<string>, order: seq<nat>, j: nat)
    requires |parts| == |order| + 1 && |pats| == |vals| && j <= |pats|
    requires Arrangement(order, |pats|) && DistinctPatterns(pats)
    requires forall k :: 0 <= k < |parts| ==> Safe(parts[k])
    requires forall k :: 0 <= k < |vals| ==> Safe(vals[k])
    requires forall k :: 0 <= k < |pats| ==> Token(pats[k])
    ensures ApplyAll(Interleave(parts, Arrange(pats, order)), Pair(pats, vals)[..j])
         == Interleave(parts, Stage(pats, vals, order, j))
  {
    var subs := Pair(pats, vals);
    var t := Interleave(parts, Arrange(pats, order));
    if j == 0 {
      assert Stage(pats, vals, order, 0) == Arrange(pats, order);
      assert subs[..0] == [];
    } else {
      var i := j - 1;
      calc {
        ApplyAll(t, subs[..j]);
        { assert subs[..j] == subs[..i] + [subs[i]];
          ApplyAllSnoc(t, subs[..i], subs[i]); }
        ReplaceFirst(ApplyAll(t, subs[..i]), subs[i].placeholder, subs[i].value);
        { FilledInStages(parts, pats, vals, order, i); }
        ReplaceFirst(Interleave(parts, Stage(pats, vals, order, i)), pats[i], vals[i]);
        { FillStep(parts, pats, vals, order, i); }
        Interleave(parts, Stage(pats, vals, order, j));
      }
    }
  }

  /** A template that holds distinct placeholders in any order, each at most
      once, between pieces of safe text, receives every value in its own
      placeholder's place, whatever order the chain replaces them in. */
  lemma FilledInAnyOrder(parts: seq<string>, pats: seq<string>, vals: seq<string>, order: seq<nat>)
    requires |parts| == |order| + 1 && |pats| == |vals|
    requires Arrangement(order, |pats|) && DistinctPatterns(pats)
    requires forall k :: 0 <= k < |parts| ==> Safe(parts[k])
    requires forall k :: 0 <= k < |vals| ==> Safe(vals[k])
    requires forall k :: 0 <= k < |pats| ==> Token(pats[k])
    ensures ApplyAll(Interleave(parts, Arrange(pats, order)), Pair(pats, vals)) == Interleave(parts, Arrange(vals, order))
  {
    FilledInStages(parts, pats, vals, order, |pats|);
    assert Pair(pats, vals)[..|pats|] == Pair(pats, vals);
    assert Stage(pats, vals, order, |pats|) == Arrange(vals, order);
  }

  /** A chain run over a template that holds its distinct placeholders in any
      order, each at most once, between pieces of safe text, puts every value
      in its place. */
  lemma ChainFillsAnyOrder(parts: seq<string>, subs: seq<Substitution>, order: seq<nat>)
    requires |parts| == |order| + 1 && Arrangement(order, |subs|)
    requires forall k :: 0 <= k < |parts| ==> Safe(parts[k])
    requires AllBraced(subs) && DistinctPatterns(Placeholders(subs))
    requires forall k :: 0 <= k < |subs| ==> Safe(subs[k].value)
    ensures ApplyAll(Interleave(parts, Arrange(Placeholders(subs), order)), subs)
         == Interleave(parts, Arrange(Values(subs), order))
  {
    FilledInAnyOrder(parts, Placeholders(subs), Values(subs), order);
    assert Pair(Placeholders(subs), Values(subs)) == subs;
  }

  /** Two chains with distinct placeholders, none shared between them, make a
      chain with distinct placeholders. */
  lemma DistinctAppend(x: seq<Substitution>, y: seq<Substitution>)
    requires DistinctPatterns(Placeholders(x)) && DistinctPatterns(Placeholders(y))
    requires forall a, b :: 0 <= a < |x| && 0 <= b < |y| ==> x[a].placeholder != y[b].placeholder
    ensures DistinctPatterns(Placeholders(x + y))
  {
    var xy := x + y;
    forall k, k' | 0 <= k < k' < |xy|
      ensures xy[k].placeholder != xy[k'].placeholder
    {
      if k' < |x| {
        assert Placeholders(x)[k] != Placeholders(x)[k'];
      } else if k < |x| {
        assert xy[k'] == y[k' - |x|];
      } else {
        assert Placeholders(y)[k - |x|] != Placeholders(y)[k' - |x|];
      }
    }
  }
}
