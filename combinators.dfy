/**
 * The combinators shared by `TagFilter` and `EntryFilter`: `QueryAnd2`,
 * `QueryOr2`, `QueryNot2`, and the `Option::map` wrapping used by
 * `as_tag_select`, `as_entry_select`, the closure wrappers and the
 * tag-to-entry bridge. Both trait implementations of each combinator are
 * the same code, so each is defined once here, generically in the kind
 * of placeholder.
 */
module Combinators {
  import opened Wrappers
  import opened Sql
  import opened Wrapping
  import opened Text

  /**
   * The match shared by `QueryAnd2` and `QueryOr2`: both present gives
   * `(a <op> b)`, one present passes through unchanged, none gives none.
   */
  function Junction<S>(op: string, a: Option<seq<Piece<S>>>, b: Option<seq<Piece<S>>>): Option<seq<Piece<S>>>
  {
    match (a, b)
    case (Some(x), Some(y)) => Some(Wrap("(", Infix(x, op, y), ")"))
    case (Some(x), None) => Some(x)
    case (None, Some(y)) => Some(y)
    case (None, None) => None
  }

  /** `QueryAnd2::get_where_condition` after both operands have rendered. */
  function AndCond<S>(a: Option<seq<Piece<S>>>, b: Option<seq<Piece<S>>>): Option<seq<Piece<S>>>
  {
    Junction(" AND ", a, b)
  }

  /** `QueryOr2::get_where_condition` after both operands have rendered. */
  function OrCond<S>(a: Option<seq<Piece<S>>>, b: Option<seq<Piece<S>>>): Option<seq<Piece<S>>>
  {
    Junction(" OR ", a, b)
  }

  /** `cond.map(|c| format!("{pre}{c}{post}"))` */
  function WrapOpt<S>(pre: string, c: Option<seq<Piece<S>>>, post: string): Option<seq<Piece<S>>>
  {
    match c
    case None => None
    case Some(x) => Some(Wrap(pre, x, post))
  }

  /** `QueryNot2::get_where_condition` after the operand has rendered. */
  function NotCond<S>(c: Option<seq<Piece<S>>>): Option<seq<Piece<S>>>
  {
    WrapOpt("(NOT (", c, "))")
  }

  /** The Some/None table of `QueryAnd2` and `QueryOr2`: an absent side is the identity. */
  lemma JunctionTable<S>(op: string, a: Option<seq<Piece<S>>>, b: Option<seq<Piece<S>>>)
    ensures Junction(op, a, b).None? <==> a.None? && b.None?
    ensures a.None? ==> Junction(op, a, b) == b
    ensures b.None? ==> Junction(op, a, b) == a
  {
  }

  /** Both present: exactly `(a AND b)` / `(a OR b)`, no parentheses around `a` or `b` themselves. */
  lemma JunctionText(op: string, x: Cond, y: Cond)
    ensures Flatten(Junction(op, Some(x), Some(y)).value) == "(" + Flatten(x) + op + Flatten(y) + ")"
  {
    WrapText("(", Infix(x, op, y), ")");
    InfixText(x, op, y);
    Assoc("(", Flatten(x) + op, Flatten(y));
    Assoc("(", Flatten(x), op);
  }

  lemma WrapOptText(pre: string, x: Cond, post: string)
    ensures WrapOpt(pre, Some(x), post).Some?
    ensures Flatten(WrapOpt(pre, Some(x), post).value) == pre + Flatten(x) + post
  {
    WrapText(pre, x, post);
  }

  /**
   * Rendering the left operand on `[n, n + |ba|)` and the right one on the
   * following placeholders, then binding the left values followed by the
   * right ones, resolves each side to its own values.
   */
  lemma JunctionResolve(op: string, a: Option<Cond>, b: Option<Cond>, ba: seq<Value>, bb: seq<Value>, n: nat)
    requires OptSlotsIn(a, n, n + |ba|) && OptSlotsIn(b, n + |ba|, n + |ba| + |bb|)
    ensures OptSlotsIn(Junction(op, a, b), n, n + |ba + bb|)
    ensures ResolveOpt(Junction(op, a, b), ba + bb, n)
         == Junction(op, ResolveOpt(a, ba, n), ResolveOpt(b, bb, n + |ba|))
  {
    if a.Some? {
      ResolveExtendRight(a.value, ba, bb, n);
    }
    if b.Some? {
      ResolveExtendLeft(b.value, ba, bb, n);
    }
    if a.Some? && b.Some? {
      InfixResolve(a.value, op, b.value, ba + bb, n);
      WrapResolve("(", Infix(a.value, op, b.value), ")", ba + bb, n);
    }
  }

  lemma WrapOptResolve(pre: string, c: Option<Cond>, post: string, binds: seq<Value>, n: nat)
    requires OptSlotsIn(c, n, n + |binds|)
    ensures OptSlotsIn(WrapOpt(pre, c, post), n, n + |binds|)
    ensures ResolveOpt(WrapOpt(pre, c, post), binds, n) == WrapOpt(pre, ResolveOpt(c, binds, n), post)
  {
    if c.Some? {
      WrapResolve(pre, c.value, post, binds, n);
    }
  }
}
