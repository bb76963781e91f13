/**
 * The shape of the WHERE fragments `parseConstraint` emits: every "(" and
 * "NOT (" it writes is closed by its own ")", properly nested, and every
 * comparison adds exactly one fragment of its own, which is never a bracket.
 */
module WhereShape {
  import opened Outcomes
  import opened QueryModel
  import opened Clauses
  import opened Compiler

  /** How a fragment moves the bracket depth: the walk's opening and closing fragments, and nothing else. */
  function Weight(f: string): int {
    if f == "(" || f == "NOT (" then 1 else if f == ")" then -1 else 0
  }

  /** The bracket depth after the fragments. */
  function Net(ws: seq<string>): int {
    if ws == [] then 0 else Net(ws[..|ws| - 1]) + Weight(ws[|ws| - 1])
  }

  /** Every bracket closed, and no prefix closing more than it opened. */
  predicate WellNested(ws: seq<string>) {
    Net(ws) == 0 && forall k :: 0 <= k <= |ws| ==> Net(ws[..k]) >= 0
  }

  /** The number of fragments a constraint compiles to: one per comparison, three per connective, two per NOT. */
  function FragmentCount(c: Constraint): nat {
    match c
    case NullConstraint => 0
    case And(c1, c2) => FragmentCount(c1) + FragmentCount(c2) + 3
    case Or(c1, c2) => FragmentCount(c1) + FragmentCount(c2) + 3
    case Not(c1) => FragmentCount(c1) + 2
    case Comparison(_, _, _) => 1
  }

  lemma {:induction false} NetConcat(a: seq<string>, b: seq<string>)
    ensures Net(a + b) == Net(a) + Net(b)
    decreases |b|
  {
    if b == [] {
      assert a + b == a;
    } else {
      var b' := b[..|b| - 1];
      assert (a + b)[..|a + b| - 1] == a + b';
      NetConcat(a, b');
    }
  }

  lemma {:induction false} NestedConcat(a: seq<string>, b: seq<string>)
    requires WellNested(a) && WellNested(b)
    ensures WellNested(a + b)
  {
    NetConcat(a, b);
    forall k | 0 <= k <= |a + b| ensures Net((a + b)[..k]) >= 0 {
      if k <= |a| {
        assert (a + b)[..k] == a[..k];
      } else {
        assert (a + b)[..k] == a + b[..k - |a|];
        NetConcat(a, b[..k - |a|]);
      }
    }
  }

  /** A single fragment that is not a bracket is well nested. */
  lemma Atom(f: string)
    requires Weight(f) == 0
    ensures WellNested([f])
  {
    assert [f][..0] == [];
    assert [f][..1] == [f];
  }

  /** Wrapping well-nested fragments in an opening fragment and ")" keeps them well nested. */
  lemma Wrap(open: string, ws: seq<string>)
    requires Weight(open) == 1 && WellNested(ws)
    ensures WellNested([open] + ws + [")"])
  {
    var all := [open] + ws + [")"];
    assert all[..|all| - 1] == [open] + ws;
    NetConcat([open], ws);
    assert Net([open]) == 1 by { assert [open][..0] == []; }
    forall k | 0 <= k <= |all| ensures Net(all[..k]) >= 0 {
      if k == 0 {
        assert all[..k] == [];
      } else if k <= |ws| + 1 {
        assert all[..k] == [open] + ws[..k - 1];
        NetConcat([open], ws[..k - 1]);
      } else {
        assert all[..k] == all;
      }
    }
  }

  /** A fragment ending in a placeholder mark is not a bracket. */
  lemma MarkedAtom(f: string)
    requires f != [] && f[|f| - 1] == '?'
    ensures Weight(f) == 0
  {
    assert "("[0] == '(' && "NOT ("[4] == '(' && ")"[0] == ')';
  }

  /** The fragment an operand adds ends in its placeholder. */
  lemma OperandAtom(b: Backend, o1: DynamicOperand, op: Operator, acc: Acc)
    requires OperandSql(b, o1, op, None, acc).Ok?
    ensures var w := OperandSql(b, o1, op, None, acc).value.sql.where;
            Weight(w[|acc.sql.where|]) == 0
  {
    ShapedAtom(OperandSql(b, o1, op, None, acc).value.sql.where[|acc.sql.where|], ResolveOperator(op).value);
  }

  /** A fragment ending in " <operator> ?" is balanced. */
  lemma ShapedAtom(f: string, o: string)
    requires |f| >= 3 + |o| && f[|f| - 3 - |o|..] == " " + o + " ?"
    ensures Weight(f) == 0
  {
    EndsInMark(f, o);
    MarkedAtom(f);
  }

  lemma EndsInMark(f: string, o: string)
    requires |f| >= 3 + |o| && f[|f| - 3 - |o|..] == " " + o + " ?"
    ensures f != [] && f[|f| - 1] == '?'
  {
    var tail := " " + o + " ?";
    assert tail[|tail| - 1] == '?';
    assert f[|f| - 1] == tail[|tail| - 1];
  }

  /** The fragment a comparison adds is "1<>1" or ends in its placeholder, so it is never a bracket. */
  lemma ComparisonAtom(b: Backend, o1: DynamicOperand, op: Operator, o2: Value, acc: Acc)
    requires ComparisonSql(b, o1, op, o2, acc).Ok?
    ensures var w := ComparisonSql(b, o1, op, o2, acc).value.sql.where;
            Weight(w[|acc.sql.where|]) == 0
  {
    if op == In {
      var items := InItems(IterableOf(o2)).value;
      if items != [] {
        OperandAtom(b, o1, In, acc);
      }
    } else if op != Contains {
      OperandAtom(b, o1, NullAware(op, o2), acc);
    }
  }

  /**
   * The fragments a constraint adds are well nested, and there is exactly
   * one per comparison plus the connective and bracket fragments.
   */
  lemma {:induction false} ConstraintNested(b: Backend, c: Constraint, acc: Acc)
    requires ConstraintSql(b, c, acc).Ok?
    ensures var w := ConstraintSql(b, c, acc).value.sql.where;
            && |w| == |acc.sql.where| + FragmentCount(c)
            && WellNested(w[|acc.sql.where|..])
    decreases c, 1
  {
    var w := ConstraintSql(b, c, acc).value.sql.where;
    match c
    case NullConstraint =>
      assert w[|acc.sql.where|..] == [];
      assert w[|acc.sql.where|..][..0] == [];
    case And(_, _) => ConnectiveNested(b, c, " AND ", acc);
    case Or(_, _) => ConnectiveNested(b, c, " OR ", acc);
    case Not(c1) => NotNested(b, c, acc);
    case Comparison(o1, op, o2) =>
      ComparisonAtom(b, o1, op, o2, acc);
      var n := |acc.sql.where|;
      assert |w| == n + 1;
      assert w[n..] == [w[n]];
      Atom(w[n]);
  }

  lemma {:induction false} NotNested(b: Backend, c: Constraint, acc: Acc)
    requires c.Not?
    requires ConstraintSql(b, c, acc).Ok?
    ensures var w := ConstraintSql(b, c, acc).value.sql.where;
            && |w| == |acc.sql.where| + FragmentCount(c)
            && WellNested(w[|acc.sql.where|..])
    decreases c, 0
  {
    var a1 := AddWhere(acc, "NOT (");
    ConstraintNested(b, c.constraint, a1);
    var a2 := ConstraintSql(b, c.constraint, a1).value;
    assert ConstraintSql(b, c, acc).value.sql.where == a2.sql.where + [")"];
    Negated(acc.sql.where, a1.sql.where, a2.sql.where);
  }

  /** The fragment-level shape of a negation: "NOT (", the operand's fragments, ")". */
  lemma Negated(w0: seq<string>, w1: seq<string>, w2: seq<string>)
    requires w1 == w0 + ["NOT ("]
    requires |w1| <= |w2| && w2[..|w1|] == w1 && WellNested(w2[|w1|..])
    ensures WellNested((w2 + [")"])[|w0|..])
  {
    var inner := w2[|w1|..];
    assert w2 == w0 + ["NOT ("] + inner;
    assert (w2 + [")"])[|w0|..] == ["NOT ("] + inner + [")"];
    Wrap("NOT (", inner);
  }

  lemma {:induction false} ConnectiveNested(b: Backend, c: Constraint, word: string, acc: Acc)
    requires c.And? || c.Or?
    requires word == " AND " || word == " OR "
    requires Connective(b, c, word, acc).Ok?
    ensures var w := Connective(b, c, word, acc).value.sql.where;
            && |w| == |acc.sql.where| + FragmentCount(c)
            && WellNested(w[|acc.sql.where|..])
    decreases c, 0
  {
    var a1 := AddWhere(acc, "(");
    ConstraintNested(b, c.constraint1, a1);
    var a2 := ConstraintSql(b, c.constraint1, a1).value;
    var a3 := AddWhere(a2, word);
    ConstraintNested(b, c.constraint2, a3);
    var a4 := ConstraintSql(b, c.constraint2, a3).value;
    assert Connective(b, c, word, acc).value.sql.where == a4.sql.where + [")"];
    Bracketed(acc.sql.where, a1.sql.where, a2.sql.where, a3.sql.where, a4.sql.where, word);
  }

  /** The fragment-level shape of a connective: "(", the first operand's fragments, the word, the second's, ")". */
  lemma Bracketed(w0: seq<string>, w1: seq<string>, w2: seq<string>, w3: seq<string>, w4: seq<string>, word: string)
    requires w1 == w0 + ["("] && w3 == w2 + [word] && Weight(word) == 0
    requires |w1| <= |w2| && w2[..|w1|] == w1 && WellNested(w2[|w1|..])
    requires |w3| <= |w4| && w4[..|w3|] == w3 && WellNested(w4[|w3|..])
    ensures WellNested((w4 + [")"])[|w0|..])
  {
    var first, second := w2[|w1|..], w4[|w3|..];
    assert w2 == w0 + ["("] + first;
    assert w4 == w0 + ["("] + first + [word] + second;
    assert (w4 + [")"])[|w0|..] == ["("] + (first + [word] + second) + [")"];
    Atom(word);
    NestedConcat(first, [word]);
    NestedConcat(first + [word], second);
    Wrap("(", first + [word] + second);
  }
}
