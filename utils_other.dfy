/** String and list utilities: clean_string, fill_list and the ARGB colour constants. */
module UtilsOther {
  import opened Common

  // ---------------------------------------------------------------- clean_string

  /** The characters of the raw string `/[^\d.-]/g, ''`, in the order clean_string visits them.
      Although it reads like a regular expression, it is used as a plain list of characters:
      '/', '[', '^', '\', 'd', '.', '-', ']', '/', 'g', ',', ' ', '\'', '\''. */
  const CleanSymbols: string := "/[^\\d.-]/g, ''"

  /** `text.split(c)[0]`: what comes before the first `c`. */
  function BeforeFirst(text: string, c: char): (r: string)
    ensures r <= text
    ensures c !in r
    ensures |r| < |text| ==> text[|r|] == c
  {
    if text == [] || text[0] == c then [] else [text[0]] + BeforeFirst(text[1..], c)
  }

  /** The longest prefix of `text` holding no character of `cs`. */
  function PrefixAvoiding(text: string, cs: seq<char>): (r: string)
    ensures r <= text
    ensures forall k :: 0 <= k < |r| ==> r[k] !in cs
    ensures |r| < |text| ==> text[|r|] in cs
  {
    if text == [] || text[0] in cs then [] else [text[0]] + PrefixAvoiding(text[1..], cs)
  }

  /** What clean_string returns, stated as the longest prefix without a symbol. */
  function Cleaned(text: string): string
  {
    PrefixAvoiding(text, CleanSymbols)
  }

  lemma {:induction false} PrefixAvoidingNothing(text: string)
    ensures PrefixAvoiding(text, []) == text
  {
    if text != [] {
      PrefixAvoidingNothing(text[1..]);
    }
  }

  /** Splitting at one more character is avoiding that character too. */
  lemma {:induction false} BeforeFirstOfPrefix(text: string, cs: seq<char>, c: char)
    ensures BeforeFirst(PrefixAvoiding(text, cs), c) == PrefixAvoiding(text, cs + [c])
  {
    if text != [] && text[0] !in cs && text[0] != c {
      BeforeFirstOfPrefix(text[1..], cs, c);
    }
  }

  /** clean_string (utils/utils_other.py:29-34): cut `text` at each symbol in turn. */
  method CleanString(text: string) returns (r: string)
    ensures r == Cleaned(text)
    ensures r <= text
    ensures forall k :: 0 <= k < |r| ==> r[k] !in CleanSymbols
    ensures |r| < |text| ==> text[|r|] in CleanSymbols
  {
    r := text;
    PrefixAvoidingNothing(text);
    for j := 0 to |CleanSymbols|
      invariant r == PrefixAvoiding(text, CleanSymbols[..j])
    {
      BeforeFirstOfPrefix(text, CleanSymbols[..j], CleanSymbols[j]);
      r := BeforeFirst(r, CleanSymbols[j]);
      assert CleanSymbols[..j + 1] == CleanSymbols[..j] + [CleanSymbols[j]];
    }
    assert CleanSymbols[..|CleanSymbols|] == CleanSymbols;
  }

  /** A string holding no symbol comes back unchanged. */
  lemma {:induction false} CleanedIdentity(text: string)
    requires forall k :: 0 <= k < |text| ==> text[k] !in CleanSymbols
    ensures Cleaned(text) == text
  {
    if text != [] {
      assert text[0] !in CleanSymbols;
      CleanedIdentity(text[1..]);
    }
  }

  lemma CleanedIdempotent(text: string)
    ensures Cleaned(Cleaned(text)) == Cleaned(text)
  {
    CleanedIdentity(Cleaned(text));
  }

  /** The result never holds a minus sign, so no cleaned number is negative. */
  lemma CleanedHasNoMinus(text: string)
    ensures '-' !in Cleaned(text)
  {
    assert '-' == CleanSymbols[6];
  }

  /** The result is fixed by where the first symbol stands: everything before it. */
  lemma CleanedUpTo(text: string, n: nat)
    requires n <= |text|
    requires forall k :: 0 <= k < n ==> text[k] !in CleanSymbols
    requires n < |text| ==> text[n] in CleanSymbols
    ensures Cleaned(text) == text[..n]
  {
  }

  /** No decimal digit is a symbol, so clean_string never cuts into a run of digits. */
  lemma DigitsAreNoSymbols()
    ensures forall c :: '0' <= c <= '9' ==> c !in CleanSymbols
  {
  }

  lemma CleanedExamples()
    ensures Cleaned("12.5") == "12"
    ensures Cleaned("-1") == ""
    ensures Cleaned("12 m") == "12"
    ensures Cleaned("3d") == "3"
    ensures Cleaned("25") == "25"
  {
    assert '.' == CleanSymbols[5];
    assert '-' == CleanSymbols[6];
    assert ' ' == CleanSymbols[11];
    assert 'd' == CleanSymbols[4];
    DigitsAreNoSymbols();
    CleanedUpTo("12.5", 2);
    CleanedUpTo("-1", 0);
    CleanedUpTo("12 m", 2);
    CleanedUpTo("3d", 1);
    CleanedUpTo("25", 2);
  }

  // -------------------------------------------------------------------- fill_list

  predicate NoAdjacentDup<T(==)>(s: seq<T>)
  {
    forall k :: 0 <= k < |s| - 1 ==> s[k] != s[k + 1]
  }

  /** The lists already appended by a call are duplicate-free and drawn from its argument;
      all but the one being filled have at least two elements. */
  predicate GoodLists<T(==)>(vals: seq<T>, acc: seq<seq<T>>)
  {
    (forall k :: 0 <= k < |acc| ==> NoDup(acc[k])) &&
    (forall k, x :: 0 <= k < |acc| && x in acc[k] ==> x in vals) &&
    (forall k :: 0 <= k < |acc| - 1 ==> |acc[k]| >= 2)
  }

  /** `lsts[len(lsts) - 1].append(v)` */
  function Extend<T>(acc: seq<seq<T>>, v: T): (r: seq<seq<T>>)
    requires |acc| >= 1
    ensures |r| == |acc| && r[..|acc| - 1] == acc[..|acc| - 1] && Last(r) == Last(acc) + [v]
  {
    acc[..|acc| - 1] + [Last(acc) + [v]]
  }

  /** The loop state of a call of fill_list on `vals`, at index `i` of its `enumerate`:
      `cur` is the (possibly reassigned) variable `vals`, `acc` the lists this call and its
      recursive calls appended so far (the list being filled last). */
  predicate Scanning<T(==)>(vals: seq<T>, i: nat, cur: seq<T>, acc: seq<seq<T>>)
  {
    |vals| >= 2 && NoAdjacentDup(vals) && i <= |vals| && IsSuffix(cur, vals) && |acc| >= 1 &&
    (i == 0 ==> Last(acc) == []) &&
    (i == 1 ==> Last(acc) == [vals[0]]) &&
    (i >= 2 ==> |Last(acc)| >= 2)
  }

  lemma SuffixMember<T>(cur: seq<T>, vals: seq<T>, x: T)
    requires IsSuffix(cur, vals) && x in cur
    ensures x in vals
  {
    var k :| 0 <= k < |cur| && cur[k] == x;
    assert vals[|vals| - |cur| + k] == x;
  }

  lemma SuffixOfSuffix<T>(cur: seq<T>, vals: seq<T>, j: nat)
    requires IsSuffix(cur, vals)
    ensures IsSuffix(Drop(cur, j), vals) && |Drop(cur, j)| <= |cur|
    ensures j >= 1 && |cur| >= 1 ==> |Drop(cur, j)| < |cur|
  {
  }

  lemma SuffixNoAdjacentDup<T>(cur: seq<T>, vals: seq<T>)
    requires IsSuffix(cur, vals) && NoAdjacentDup(vals)
    ensures NoAdjacentDup(cur)
  {
    var d := |vals| - |cur|;
    forall k | 0 <= k < |cur| - 1 ensures cur[k] != cur[k + 1] {
      assert cur[k] == vals[d + k] && cur[k + 1] == vals[d + k + 1];
    }
  }

  /** The lists one call `fill_list(vals, lsts)` appends to `lsts`. The source's revisit of a
      repeat (a pop of a one-element list) cannot happen under NoAdjacentDup, which the
      source needs anyway to terminate (see RecursesOnItself). */
  function Fill<T(==)>(vals: seq<T>): (r: seq<seq<T>>)
    requires NoAdjacentDup(vals)
    ensures GoodLists(vals, r) && forall k :: 0 <= k < |r| ==> |r[k]| >= 2
    decreases |vals|, 1, 0
  {
    if |vals| <= 1 then [] else FillFrom(vals, 0, vals, [[]])
  }

  /** The rest of the `for i, v in enumerate(vals)` loop of one call, from index `i` on. */
  function FillFrom<T(==)>(vals: seq<T>, i: nat, cur: seq<T>, acc: seq<seq<T>>): (r: seq<seq<T>>)
    requires Scanning(vals, i, cur, acc) && GoodLists(vals, acc)
    ensures GoodLists(vals, r) && forall k :: 0 <= k < |r| ==> |r[k]| >= 2
    decreases |vals|, 0, |vals| - i
  {
    if i == |vals| then acc
    else if vals[i] !in Last(acc) then
      FillFrom(vals, i + 1, cur, Extend(acc, vals[i]))
    else
      assert i >= 2;
      var next := Drop(cur, i - 1);
      SuffixOfSuffix(cur, vals, i - 1);
      SuffixNoAdjacentDup(next, vals);
      var more := Fill(next);
      forall k, x | 0 <= k < |more| && x in more[k] ensures x in vals {
        SuffixMember(next, vals, x);
      }
      FillFrom(vals, i + 1, next, acc + more)
  }

  /** Until the first repeat, a call appends its list's elements one by one to the list it
      created. */
  lemma {:induction false} FillFromDistinctRun<T>(vals: seq<T>, i: nat, j: nat, cur: seq<T>, acc: seq<seq<T>>)
    requires Scanning(vals, i, cur, acc) && GoodLists(vals, acc)
    requires i <= j <= |vals| && NoDup(vals[..j]) && Last(acc) == vals[..i]
    ensures Scanning(vals, j, cur, acc[..|acc| - 1] + [vals[..j]])
    ensures GoodLists(vals, acc[..|acc| - 1] + [vals[..j]])
    ensures FillFrom(vals, i, cur, acc) == FillFrom(vals, j, cur, acc[..|acc| - 1] + [vals[..j]])
    decreases j - i
  {
    if i == j {
      assert acc[..|acc| - 1] + [vals[..j]] == acc;
    } else {
      assert vals[i] == vals[..j][i] && vals[..i] == vals[..j][..i];
      assert vals[i] !in vals[..i];
      var acc' := Extend(acc, vals[i]);
      assert vals[..i + 1] == vals[..i] + [vals[i]];
      AppendStep(vals, i, cur, acc);
      FillFromDistinctRun(vals, i + 1, j, cur, acc');
      assert acc'[..|acc'| - 1] == acc[..|acc| - 1];
    }
  }

  lemma FillRepeatFree<T>(vals: seq<T>)
    requires NoDup(vals) && |vals| >= 2
    ensures NoAdjacentDup(vals) && Fill(vals) == [vals]
  {
    assert NoAdjacentDup(vals) by {
      forall k | 0 <= k < |vals| - 1 ensures vals[k] != vals[k + 1] {
      }
    }
    assert vals[..|vals|] == vals && vals[..0] == [];
    FillFromDistinctRun(vals, 0, |vals|, vals, [[]]);
    assert [[]][..0] + [vals] == [vals];
  }

  /** A short list is left alone. */
  lemma FillShort<T>(vals: seq<T>)
    requires |vals| <= 1
    ensures NoAdjacentDup(vals) && Fill(vals) == []
  {
  }

  /** The way [A, B, C, B, D] is split at the repeated B into [A, B, C] and [C, B, D]. */
  lemma FillExample<T>(a: T, b: T, c: T, d: T)
    requires a != b && a != c && a != d && b != c && b != d && c != d
    ensures NoAdjacentDup([a, b, c, b, d]) && Fill([a, b, c, b, d]) == [[a, b, c], [c, b, d]]
  {
    ExampleScansPrefix(a, b, c, d);
    ExampleRecurses(a, b, c, d);
  }

  lemma ExampleNoAdjacentDup<T>(a: T, b: T, c: T, d: T)
    requires a != b && a != c && a != d && b != c && b != d && c != d
    ensures NoAdjacentDup([a, b, c, b, d])
  {
    var vals := [a, b, c, b, d];
    forall k | 0 <= k < 4 ensures vals[k] != vals[k + 1] {
      if k == 0 {} else if k == 1 {} else if k == 2 {} else {}
    }
  }

  lemma ExampleScansPrefix<T>(a: T, b: T, c: T, d: T)
    requires a != b && a != c && a != d && b != c && b != d && c != d
    ensures NoAdjacentDup([a, b, c, b, d])
    ensures Scanning([a, b, c, b, d], 3, [a, b, c, b, d], [[a, b, c]])
    ensures GoodLists([a, b, c, b, d], [[a, b, c]])
    ensures Fill([a, b, c, b, d]) == FillFrom([a, b, c, b, d], 3, [a, b, c, b, d], [[a, b, c]])
  {
    var vals := [a, b, c, b, d];
    ExampleNoAdjacentDup(a, b, c, d);
    assert vals[..3] == [a, b, c] && vals[..0] == [];
    FillFromDistinctRun(vals, 0, 3, vals, [[]]);
    assert [[]][..0] + [[a, b, c]] == [[a, b, c]];
  }

  lemma ExampleRecurses<T>(a: T, b: T, c: T, d: T)
    requires a != b && a != c && a != d && b != c && b != d && c != d
    requires NoAdjacentDup([a, b, c, b, d])
    requires Scanning([a, b, c, b, d], 3, [a, b, c, b, d], [[a, b, c]])
    requires GoodLists([a, b, c, b, d], [[a, b, c]])
    ensures FillFrom([a, b, c, b, d], 3, [a, b, c, b, d], [[a, b, c]]) == [[a, b, c], [c, b, d]]
  {
    var vals := [a, b, c, b, d];
    var tail := [c, b, d];
    var both := [[a, b, c], [c, b, d]];
    assert NoDup(tail) by {
      forall i, j | 0 <= i < j < 3 ensures tail[i] != tail[j] {
        if i == 0 && j == 1 {} else if i == 0 {} else {}
      }
    }
    assert Drop(vals, 2) == tail;
    FillRepeatFree(tail);
    RecurseStep(vals, 3, vals, [[a, b, c]]);
    assert [[a, b, c]] + Fill(tail) == both;
    assert Drop(tail, 3) == [];
    RecurseStep(vals, 4, tail, both);
    assert both + Fill(Drop(tail, 3)) == both;
  }

  /** The first index at which, in a call that has not yet recursed, the element is already in
      the list being filled; that list is then `vals[..i]`. */
  function FirstRepeatFrom<T(==)>(vals: seq<T>, i: nat): (r: Option<nat>)
    requires i <= |vals|
    ensures r.Some? ==> i <= r.value < |vals| && vals[r.value] in vals[..r.value]
    ensures r.Some? ==> forall j :: i <= j < r.value ==> vals[j] !in vals[..j]
    decreases |vals| - i
  {
    if i == |vals| then None
    else if vals[i] in vals[..i] then Some(i)
    else FirstRepeatFrom(vals, i + 1)
  }

  /** The arguments of the first recursive call that `fill_list(vals, lsts)` makes, if any:
      the slice `vals[i-1:]` and the caller's list after the optional pop of a list of one. */
  function FirstRecursion<T(==)>(vals: seq<T>, lsts: seq<seq<T>>): Option<(seq<T>, seq<seq<T>>)>
  {
    if |vals| <= 1 then None
    else match FirstRepeatFrom(vals, 0)
      case None => None
      case Some(p) =>
        Some((Drop(vals, p - 1), if p <= 1 then lsts else lsts + [vals[..p]]))
  }

  /** Two equal leading elements make the call recurse with exactly its own arguments, so the
      source never returns; no other list does that on its first recursion. */
  lemma RecursesOnItself<T>(vals: seq<T>, lsts: seq<seq<T>>)
    requires |vals| >= 2
    ensures FirstRecursion(vals, lsts) == Some((vals, lsts)) <==> vals[0] == vals[1]
  {
    if vals[0] == vals[1] {
      assert vals[0] !in vals[..0];
      assert vals[1] in vals[..1];
      assert FirstRepeatFrom(vals, 0) == Some(1);
      assert Drop(vals, 0) == vals;
    }
  }

  /** The arguments after following the first recursive call `n` times; each call makes no
      other call before that one returns. */
  function RecursionChain<T(==)>(vals: seq<T>, lsts: seq<seq<T>>, n: nat): Option<(seq<T>, seq<seq<T>>)>
    decreases n
  {
    if n == 0 then Some((vals, lsts))
    else match FirstRecursion(vals, lsts)
      case None => None
      case Some(next) => RecursionChain(next.0, next.1, n - 1)
  }

  /** A call whose first recursive call is on its own arguments never returns. */
  predicate SelfRecursive<T(==)>(call: (seq<T>, seq<seq<T>>))
  {
    FirstRecursion(call.0, call.1) == Some(call)
  }

  /** A repeat at position `k` is found no later than `k`. */
  lemma {:induction false} FirstRepeatBy<T>(vals: seq<T>, i: nat, k: nat)
    requires i <= k < |vals| && vals[k] in vals[..k]
    ensures FirstRepeatFrom(vals, i).Some? && FirstRepeatFrom(vals, i).value <= k
    decreases k - i
  {
    if vals[i] !in vals[..i] {
      FirstRepeatBy(vals, i + 1, k);
    }
  }

  /** Any two equal neighbours, not only a leading pair: the calls slide forward along the
      list until the pair leads, and that call recurses on itself, so `fill_list` never
      returns. */
  lemma {:induction false} AdjacentRepeatNeverReturns<T>(vals: seq<T>, lsts: seq<seq<T>>)
    requires !NoAdjacentDup(vals)
    ensures exists n: nat :: RecursionChain(vals, lsts, n).Some? && SelfRecursive(RecursionChain(vals, lsts, n).value)
    decreases |vals|
  {
    var j :| 0 <= j < |vals| - 1 && vals[j] == vals[j + 1];
    if vals[0] == vals[1] {
      RecursesOnItself(vals, lsts);
      assert RecursionChain(vals, lsts, 0) == Some((vals, lsts));
    } else {
      assert vals[j + 1] in vals[..j + 1];
      FirstRepeatBy(vals, 0, j + 1);
      var p := FirstRepeatFrom(vals, 0).value;
      assert p != 0 && p != 1 by {
        assert vals[..0] == [] && vals[..1] == [vals[0]];
      }
      var next := (Drop(vals, p - 1), if p <= 1 then lsts else lsts + [vals[..p]]);
      assert FirstRecursion(vals, lsts) == Some(next);
      assert next.0[j - (p - 1)] == vals[j] && next.0[j - (p - 1) + 1] == vals[j + 1];
      AdjacentRepeatNeverReturns(next.0, next.1);
      var n: nat :| RecursionChain(next.0, next.1, n).Some? && SelfRecursive(RecursionChain(next.0, next.1, n).value);
      assert RecursionChain(vals, lsts, n + 1) == RecursionChain(next.0, next.1, n);
    }
  }

  /** One iteration that appends `vals[i]` to the list being filled. */
  lemma AppendStep<T>(vals: seq<T>, i: nat, cur: seq<T>, acc: seq<seq<T>>)
    requires Scanning(vals, i, cur, acc) && GoodLists(vals, acc)
    requires i < |vals| && vals[i] !in Last(acc)
    ensures Scanning(vals, i + 1, cur, Extend(acc, vals[i]))
    ensures GoodLists(vals, Extend(acc, vals[i]))
    ensures FillFrom(vals, i + 1, cur, Extend(acc, vals[i]))
         == FillFrom(vals, i, cur, acc)
  {
  }

  /** One iteration that meets a repeat: nothing is popped, and the recursive call gets a
      strictly shorter suffix of the original list. */
  lemma RecurseStep<T>(vals: seq<T>, i: nat, cur: seq<T>, acc: seq<seq<T>>)
    requires Scanning(vals, i, cur, acc) && GoodLists(vals, acc)
    requires i < |vals| && vals[i] in Last(acc)
    ensures i >= 2 && |Last(acc)| >= 2
    ensures IsSuffix(Drop(cur, i - 1), vals) && |Drop(cur, i - 1)| < |vals|
    ensures NoAdjacentDup(Drop(cur, i - 1))
    ensures Scanning(vals, i + 1, Drop(cur, i - 1), acc + Fill(Drop(cur, i - 1)))
    ensures GoodLists(vals, acc + Fill(Drop(cur, i - 1)))
    ensures FillFrom(vals, i + 1, Drop(cur, i - 1), acc + Fill(Drop(cur, i - 1)))
         == FillFrom(vals, i, cur, acc)
  {
    var next := Drop(cur, i - 1);
    SuffixOfSuffix(cur, vals, i - 1);
    SuffixNoAdjacentDup(next, vals);
    forall k, x | 0 <= k < |Fill(next)| && x in Fill(next)[k] ensures x in vals {
      SuffixMember(next, vals, x);
    }
  }

  /** The loop state of a call of fill_list on `vals` at index `i`, and what the rest of the
      loop will append being what the whole call appends. */
  predicate Filling<T(==)>(vals: seq<T>, i: nat, cur: seq<T>, acc: seq<seq<T>>)
  {
    Scanning(vals, i, cur, acc) && GoodLists(vals, acc) && FillFrom(vals, i, cur, acc) == Fill(vals)
  }

  lemma AppendFilling<T>(vals: seq<T>, i: nat, cur: seq<T>, acc: seq<seq<T>>)
    requires Filling(vals, i, cur, acc) && i < |vals| && vals[i] !in Last(acc)
    ensures Filling(vals, i + 1, cur, Extend(acc, vals[i]))
  {
    AppendStep(vals, i, cur, acc);
  }

  lemma RecurseFilling<T>(vals: seq<T>, i: nat, cur: seq<T>, acc: seq<seq<T>>)
    requires Filling(vals, i, cur, acc) && i < |vals| && vals[i] in Last(acc)
    ensures i >= 2 && |Last(acc)| >= 2 && NoAdjacentDup(Drop(cur, i - 1)) && |Drop(cur, i - 1)| < |vals|
    ensures Filling(vals, i + 1, Drop(cur, i - 1), acc + Fill(Drop(cur, i - 1)))
  {
    RecurseStep(vals, i, cur, acc);
  }

  /** Appending to the last list of `base + acc` in place extends `acc`. */
  lemma ExtendInPlace<T>(base: seq<seq<T>>, acc: seq<seq<T>>, v: T)
    requires |acc| >= 1
    ensures (base + acc)[|base + acc| - 1 := Last(acc) + [v]] == base + Extend(acc, v)
  {
  }

  /** The caller's list of lists that fill_list appends to and pops from in place. */
  class Sublists<T(==)> {
    var lists: seq<seq<T>>

    constructor (initial: seq<seq<T>>)
      ensures lists == initial
    {
      lists := initial;
    }

    /** fill_list (utils/utils_other.py:37-51). */
    method FillList(vals: seq<T>)
      requires NoAdjacentDup(vals)
      modifies this
      ensures lists == old(lists) + Fill(vals)
      decreases |vals|
    {
      if |vals| > 1 {
        lists := lists + [[]];
      } else {
        return;
      }
      ghost var base := old(lists);
      ghost var acc: seq<seq<T>> := [[]];
      var cur := vals;
      for i := 0 to |vals|
        invariant Filling(vals, i, cur, acc)
        invariant lists == base + acc
      {
        var v := vals[i];
        assert lists[|lists| - 1] == Last(acc);
        if v !in lists[|lists| - 1] {
          AppendFilling(vals, i, cur, acc);
          ExtendInPlace(base, acc, v);
          lists := lists[|lists| - 1 := lists[|lists| - 1] + [v]];
          acc := Extend(acc, v);
        } else {
          RecurseFilling(vals, i, cur, acc);
          lists := if |lists[|lists| - 1]| <= 1 then DropLast(lists) else lists;
          cur := Drop(cur, i - 1);
          FillList(cur);
          ConcatAssoc(base, acc, Fill(cur));
          acc := acc + Fill(cur);
        }
      }
    }
  }

  // ------------------------------------------------------------ colour constants

  /** Four 8-bit channels packed as in `(a << 24) + (r << 16) + (g << 8) + b`. */
  function Argb(a: nat, r: nat, g: nat, b: nat): nat
  {
    a * 0x100_0000 + r * 0x1_0000 + g * 0x100 + b
  }

  lemma ArgbChannels(a: nat, r: nat, g: nat, b: nat)
    requires a < 256 && r < 256 && g < 256 && b < 256
    ensures Argb(a, r, g, b) < 0x1_0000_0000
    ensures Argb(a, r, g, b) / 0x100_0000 == a
    ensures Argb(a, r, g, b) / 0x1_0000 % 0x100 == r
    ensures Argb(a, r, g, b) / 0x100 % 0x100 == g
    ensures Argb(a, r, g, b) % 0x100 == b
  {
    var low := r * 0x1_0000 + g * 0x100 + b;
    assert Argb(a, r, g, b) == a * 0x100_0000 + low;
    SplitDigit(a, low, 0x100_0000);
    SplitDigit(a * 0x100 + r, g * 0x100 + b, 0x1_0000);
    SplitDigit(a, r, 0x100);
    SplitDigit(a * 0x1_0000 + r * 0x100 + g, b, 0x100);
    SplitDigit(a * 0x100 + r, g, 0x100);
  }

  /** Dividing `hi * base + lo` by `base` gives back its two digits. */
  lemma SplitDigit(hi: nat, lo: nat, base: nat)
    requires lo < base
    ensures (hi * base + lo) / base == hi && (hi * base + lo) % base == lo
  {
    var n := hi * base + lo;
    var q, m := n / base, n % base;
    var d := q - hi;
    assert d * base == lo - m by {
      assert n == q * base + m;
      assert d * base == q * base - hi * base;
    }
    if d >= 1 {
      AtLeastOnce(d, base);
    } else if d <= -1 {
      AtLeastOnce(-d, base);
    }
  }

  lemma {:induction false} AtLeastOnce(k: int, base: nat)
    requires k >= 1
    ensures k * base >= base
    decreases k
  {
    if k > 1 {
      AtLeastOnce(k - 1, base);
      assert k * base == (k - 1) * base + base;
    }
  }

  /** COLOR_ROAD, COLOR_BLD and COLOR_VISIBILITY (utils/utils_other.py:9-11). */
  const ColorRoad: nat := (255 * 0x100_0000) + (50 * 0x1_0000) + (50 * 0x100) + 50
  const ColorBuilding: nat := (255 * 0x100_0000) + (230 * 0x1_0000) + (230 * 0x100) + 230
  const ColorVisibility: nat := (255 * 0x100_0000) + (255 * 0x1_0000) + (10 * 0x100) + 10

  lemma ColorChannels()
    ensures ColorRoad == Argb(255, 50, 50, 50)
    ensures ColorBuilding == Argb(255, 230, 230, 230)
    ensures ColorVisibility == Argb(255, 255, 10, 10)
    ensures ColorBuilding / 0x100_0000 == 255 && ColorBuilding % 0x100 == 230
  {
  }
}
