/**
 * Generated SQL as the query layer builds it: text with numbered `$n`
 * placeholders, plus the ordered list of values bound to them.
 *
 * A condition is a sequence of pieces. `Slot(s)` is a placeholder: while
 * rendering, `s` is the counter value written as `$s`; in the reference
 * rendering used by the alignment theorems, `s` is the bound value itself.
 * `Name(p, n)` is an identifier numbered from the counter, such as
 * `ChildTags_3`, which is not a placeholder.
 */
module Sql {
  import opened Wrappers
  import opened Text

  /** `chrono::NaiveDate`, kept opaque. */
  datatype Date = Date(year: int, month: int, day: int)

  /** A value bound to a placeholder with `query.bind(..)`. */
  datatype Value =
    | IntValue(i: int)
    | StrValue(s: string)
    | BoolValue(b: bool)
    | DateValue(d: Date)
      /** `serde_json::to_string` of an id list, one opaque value. */
    | JsonIds(ids: seq<int>)
      /** `serde_json::to_string` of a string list, one opaque value. */
    | JsonStrings(strs: seq<string>)

  datatype Piece<S> = Lit(text: string) | Slot(slot: S) | Name(prefix: string, id: nat)

  /** A condition as rendered: placeholders carry counter values. */
  type Cond = seq<Piece<nat>>

  /** The result of one rendering pass: the condition (if any) and the counter afterwards. */
  datatype Rendered = Rendered(cond: Option<Cond>, next: nat)

  function PieceText(p: Piece<nat>): string
  {
    match p
    case Lit(t) => t
    case Slot(n) => "$" + Decimal(n)
    case Name(prefix, n) => prefix + Decimal(n)
  }

  /** The SQL text of a rendered condition. */
  function Flatten(s: Cond): string
  {
    if s == [] then "" else PieceText(s[0]) + Flatten(s[1..])
  }

  lemma {:induction false} FlattenAppend(a: Cond, b: Cond)
    ensures Flatten(a + b) == Flatten(a) + Flatten(b)
  {
    if a == [] {
      assert a + b == b;
    } else {
      assert (a + b)[0] == a[0];
      assert (a + b)[1..] == a[1..] + b;
      FlattenAppend(a[1..], b);
    }
  }

  lemma FlattenSingle(p: Piece<nat>)
    ensures Flatten([p]) == PieceText(p)
  {
    assert [p][1..] == [];
  }

  /** Every placeholder of `s` lies in `[lo, hi)`. */
  ghost predicate SlotsIn(s: seq<Piece<nat>>, lo: nat, hi: nat)
  {
    forall i :: 0 <= i < |s| && s[i].Slot? ==> lo <= s[i].slot < hi
  }

  ghost predicate OptSlotsIn(c: Option<Cond>, lo: nat, hi: nat)
  {
    c.Some? ==> SlotsIn(c.value, lo, hi)
  }

  lemma SlotsInAppend(a: Cond, b: Cond, lo: nat, hi: nat)
    ensures SlotsIn(a + b, lo, hi) <==> SlotsIn(a, lo, hi) && SlotsIn(b, lo, hi)
  {
    if SlotsIn(a, lo, hi) && SlotsIn(b, lo, hi) {
      forall i | 0 <= i < |a + b| && (a + b)[i].Slot? ensures lo <= (a + b)[i].slot < hi {
        if i >= |a| { assert (a + b)[i] == b[i - |a|]; }
      }
    }
    if SlotsIn(a + b, lo, hi) {
      forall i | 0 <= i < |a| && a[i].Slot? ensures lo <= a[i].slot < hi {
        assert (a + b)[i] == a[i];
      }
      forall i | 0 <= i < |b| && b[i].Slot? ensures lo <= b[i].slot < hi {
        assert (a + b)[|a| + i] == b[i];
      }
    }
  }

  lemma SlotsInWiden(s: Cond, lo: nat, hi: nat, lo': nat, hi': nat)
    requires SlotsIn(s, lo, hi) && lo' <= lo && hi <= hi'
    ensures SlotsIn(s, lo', hi')
  {
  }

  function ResolvePiece(p: Piece<nat>, binds: seq<Value>, start: nat): Piece<Value>
    requires p.Slot? ==> start <= p.slot < start + |binds|
  {
    match p
    case Lit(t) => Lit(t)
    case Slot(n) => Slot(binds[n - start])
    case Name(prefix, n) => Name(prefix, n)
  }

  /**
   * What the database sees once the values are bound: placeholder `$p` takes
   * the value bound at position `p - start` (rendering started at `start`).
   */
  function Resolve(s: Cond, binds: seq<Value>, start: nat): (r: seq<Piece<Value>>)
    requires SlotsIn(s, start, start + |binds|)
  {
    seq(|s|, i requires 0 <= i < |s| => ResolvePiece(s[i], binds, start))
  }

  function ResolveOpt(c: Option<Cond>, binds: seq<Value>, start: nat): Option<seq<Piece<Value>>>
    requires OptSlotsIn(c, start, start + |binds|)
  {
    match c
    case None => None
    case Some(s) => Some(Resolve(s, binds, start))
  }

  lemma ResolveAppend(a: Cond, b: Cond, binds: seq<Value>, start: nat)
    requires SlotsIn(a, start, start + |binds|) && SlotsIn(b, start, start + |binds|)
    ensures SlotsIn(a + b, start, start + |binds|)
    ensures Resolve(a + b, binds, start) == Resolve(a, binds, start) + Resolve(b, binds, start)
  {
    SlotsInAppend(a, b, start, start + |binds|);
  }

  /** Values bound after the ones a condition uses do not change how it resolves. */
  lemma ResolveExtendRight(s: Cond, left: seq<Value>, right: seq<Value>, start: nat)
    requires SlotsIn(s, start, start + |left|)
    ensures SlotsIn(s, start, start + |left + right|)
    ensures Resolve(s, left + right, start) == Resolve(s, left, start)
  {
  }

  /** Values bound before the ones a condition uses shift its placeholders' positions. */
  lemma ResolveExtendLeft(s: Cond, left: seq<Value>, right: seq<Value>, start: nat)
    requires SlotsIn(s, start + |left|, start + |left| + |right|)
    ensures SlotsIn(s, start, start + |left + right|)
    ensures Resolve(s, left + right, start) == Resolve(s, right, start + |left|)
  {
  }

  function ShiftPiece(p: Piece<nat>, n: nat): Piece<nat>
  {
    match p
    case Lit(t) => Lit(t)
    case Slot(k) => Slot(n + k)
    case Name(prefix, k) => Name(prefix, k)
  }

  /**
   * A leaf's template numbers its own placeholders and tables from 0;
   * rendering it with the counter at `n` writes `$(n + k)` for its `k`-th
   * placeholder.
   */
  function Shift(t: Cond, n: nat): (r: Cond)
    ensures |r| == |t|
  {
    seq(|t|, i requires 0 <= i < |t| => ShiftPiece(t[i], n))
  }

  /**
   * A template shifted to start at `n` and resolved against values bound
   * from `n` on means the same as the template resolved from 0.
   */
  lemma ShiftResolve(t: Cond, vals: seq<Value>, n: nat)
    requires SlotsIn(t, 0, |vals|)
    ensures SlotsIn(Shift(t, n), n, n + |vals|)
    ensures Resolve(Shift(t, n), vals, n) == Resolve(t, vals, 0)
  {
    var a := Resolve(Shift(t, n), vals, n);
    var b := Resolve(t, vals, 0);
    forall i | 0 <= i < |t| ensures a[i] == b[i] {
      match t[i]
      case Lit(_) =>
      case Slot(k) => assert Shift(t, n)[i] == Slot(n + k);
      case Name(_, _) =>
    }
  }

  lemma FlattenShiftAppend(a: Cond, b: Cond, n: nat)
    ensures Flatten(Shift(a + b, n)) == Flatten(Shift(a, n)) + Flatten(Shift(b, n))
  {
    assert Shift(a + b, n) == Shift(a, n) + Shift(b, n);
    FlattenAppend(Shift(a, n), Shift(b, n));
  }

  /** Seven parts shifted and flattened one by one, concatenated left to right. */
  lemma FlattenShiftSeven(p0: Cond, p1: Cond, p2: Cond, p3: Cond, p4: Cond, p5: Cond, p6: Cond, n: nat)
    ensures Flatten(Shift(p0 + p1 + p2 + p3 + p4 + p5 + p6, n))
         == Flatten(Shift(p0, n)) + Flatten(Shift(p1, n)) + Flatten(Shift(p2, n)) + Flatten(Shift(p3, n))
            + Flatten(Shift(p4, n)) + Flatten(Shift(p5, n)) + Flatten(Shift(p6, n))
  {
    FlattenShiftAppend(p0 + p1 + p2 + p3 + p4 + p5, p6, n);
    FlattenShiftAppend(p0 + p1 + p2 + p3 + p4, p5, n);
    FlattenShiftAppend(p0 + p1 + p2 + p3, p4, n);
    FlattenShiftAppend(p0 + p1 + p2, p3, n);
    FlattenShiftAppend(p0 + p1, p2, n);
    FlattenShiftAppend(p0, p1, n);
  }

  lemma FlattenShiftSingle(p: Piece<nat>, n: nat)
    ensures Flatten(Shift([p], n)) == PieceText(ShiftPiece(p, n))
  {
    assert Shift([p], n) == [ShiftPiece(p, n)];
    FlattenSingle(ShiftPiece(p, n));
  }

  /** A leaf of the shape `<head>$n`. */
  lemma HeadSlotText(head: string, n: nat)
    ensures Flatten(Shift([Lit(head), Slot(0)], n)) == head + "$" + Decimal(n)
  {
    assert [Lit(head), Slot(0)] == [Lit(head)] + [Slot(0)];
    FlattenShiftAppend([Lit(head)], [Slot(0)], n);
    FlattenShiftSingle(Lit(head), n);
    FlattenShiftSingle(Slot(0), n);
    Assoc(head, "$", Decimal(n));
  }

  /** A leaf of the shape `<head>$n<tail>`. */
  lemma HeadSlotTailText(head: string, tail: string, n: nat)
    ensures Flatten(Shift([Lit(head), Slot(0), Lit(tail)], n)) == head + "$" + Decimal(n) + tail
  {
    assert [Lit(head), Slot(0), Lit(tail)] == [Lit(head), Slot(0)] + [Lit(tail)];
    FlattenShiftAppend([Lit(head), Slot(0)], [Lit(tail)], n);
    HeadSlotText(head, n);
    FlattenShiftSingle(Lit(tail), n);
  }

  /** A leaf of the shape `<head>$n<middle>$n<tail>`, one placeholder used twice. */
  lemma TwiceSlotText(head: string, middle: string, tail: string, n: nat)
    ensures Flatten(Shift([Lit(head), Slot(0), Lit(middle), Slot(0), Lit(tail)], n))
         == head + "$" + Decimal(n) + middle + "$" + Decimal(n) + tail
  {
    var first: Cond := [Lit(head), Slot(0), Lit(middle)];
    var second: Cond := [Slot(0), Lit(tail)];
    assert [Lit(head), Slot(0), Lit(middle), Slot(0), Lit(tail)] == first + second;
    FlattenShiftAppend(first, second, n);
    HeadSlotTailText(head, middle, n);
    assert second == [Slot(0)] + [Lit(tail)];
    FlattenShiftAppend([Slot(0)], [Lit(tail)], n);
    FlattenShiftSingle(Slot(0), n);
    FlattenShiftSingle(Lit(tail), n);
    var x := head + "$" + Decimal(n) + middle;
    Assoc(x, "$" + Decimal(n), tail);
    Assoc(x, "$", Decimal(n));
  }

  /** The placeholder counter, Rust's `&mut u64` shared by one rendering pass. */
  class Counter {
    var value: nat

    constructor (start: nat)
      ensures value == start
    {
      value := start;
    }

    /** `bind_id.add_assign(k)` */
    method AddAssign(k: nat)
      modifies this
      ensures value == old(value) + k
    {
      value := value + k;
    }
  }
}

/** Text wrapped around a condition, the shape of every combinator and wrapper. */
module Wrapping {
  import opened Wrappers
  import opened Sql

  /** `format!("{pre}{c}{post}")` */
  function Wrap<S>(pre: string, c: seq<Piece<S>>, post: string): seq<Piece<S>>
  {
    [Lit(pre)] + c + [Lit(post)]
  }

  /** `format!("{a}{op}{b}")` */
  function Infix<S>(a: seq<Piece<S>>, op: string, b: seq<Piece<S>>): seq<Piece<S>>
  {
    a + [Lit(op)] + b
  }

  lemma WrapText(pre: string, c: Cond, post: string)
    ensures Flatten(Wrap(pre, c, post)) == pre + Flatten(c) + post
  {
    FlattenAppend([Lit(pre)] + c, [Lit(post)]);
    FlattenAppend([Lit(pre)], c);
    FlattenSingle(Lit(pre));
    FlattenSingle(Lit(post));
  }

  lemma InfixText(a: Cond, op: string, b: Cond)
    ensures Flatten(Infix(a, op, b)) == Flatten(a) + op + Flatten(b)
  {
    FlattenAppend(a + [Lit(op)], b);
    FlattenAppend(a, [Lit(op)]);
    FlattenSingle(Lit(op));
  }

  lemma WrapSlots(pre: string, c: Cond, post: string, lo: nat, hi: nat)
    ensures SlotsIn(Wrap(pre, c, post), lo, hi) <==> SlotsIn(c, lo, hi)
  {
    SlotsInAppend([Lit(pre)] + c, [Lit(post)], lo, hi);
    SlotsInAppend([Lit(pre)], c, lo, hi);
  }

  lemma InfixSlots(a: Cond, op: string, b: Cond, lo: nat, hi: nat)
    ensures SlotsIn(Infix(a, op, b), lo, hi) <==> SlotsIn(a, lo, hi) && SlotsIn(b, lo, hi)
  {
    SlotsInAppend(a + [Lit(op)], b, lo, hi);
    SlotsInAppend(a, [Lit(op)], lo, hi);
  }

  lemma WrapResolve(pre: string, c: Cond, post: string, binds: seq<Value>, start: nat)
    requires SlotsIn(c, start, start + |binds|)
    ensures SlotsIn(Wrap(pre, c, post), start, start + |binds|)
    ensures Resolve(Wrap(pre, c, post), binds, start) == Wrap(pre, Resolve(c, binds, start), post)
  {
    WrapSlots(pre, c, post, start, start + |binds|);
  }

  lemma InfixResolve(a: Cond, op: string, b: Cond, binds: seq<Value>, start: nat)
    requires SlotsIn(a, start, start + |binds|) && SlotsIn(b, start, start + |binds|)
    ensures SlotsIn(Infix(a, op, b), start, start + |binds|)
    ensures Resolve(Infix(a, op, b), binds, start)
         == Infix(Resolve(a, binds, start), op, Resolve(b, binds, start))
  {
    InfixSlots(a, op, b, start, start + |binds|);
  }
}
