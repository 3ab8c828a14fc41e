// Ground names: `p(a,b)` strings built from a symbol and its arguments, and their inverses.
module Names {
  import opened HddlAst

  function Join(args: seq<Name>): string {
    if args == [] then ""
    else if |args| == 1 then args[0]
    else args[0] + "," + Join(args[1..])
  }

  /** The ground name of a symbol applied to object names. */
  function AtomKey(p: Name, args: seq<Name>): string {
    if args == [] then p else p + "(" + Join(args) + ")"
  }

  /** Everything before the first `(`. */
  function TaskBaseName(s: string): string {
    if s == [] || s[0] == '(' then "" else [s[0]] + TaskBaseName(s[1..])
  }

  lemma {:induction false} BaseNameOfPrefix(p: Name, rest: string)
    requires '(' !in p
    requires rest == "" || rest[0] == '('
    ensures TaskBaseName(p + rest) == p
  {
    if p == "" {
      assert p + rest == rest;
    } else {
      assert (p + rest)[1..] == p[1..] + rest;
      BaseNameOfPrefix(p[1..], rest);
    }
  }

  /** `TaskBaseName` undoes `AtomKey` on every symbol without a parenthesis. */
  lemma BaseNameInvertsKey(p: Name, args: seq<Name>)
    requires '(' !in p
    ensures TaskBaseName(AtomKey(p, args)) == p
  {
    if args == [] {
      BaseNameOfPrefix(p, "");
      assert p + "" == p;
    } else {
      BaseNameOfPrefix(p, "(" + Join(args) + ")");
      assert p + ("(" + Join(args) + ")") == AtomKey(p, args);
    }
  }

  lemma {:induction false} JoinSnoc(args: seq<Name>, x: Name)
    ensures Join(args + [x]) == if args == [] then x else Join(args) + "," + x
  {
    if args == [] {
      assert args + [x] == [x];
    } else if |args| > 1 {
      JoinSnoc(args[1..], x);
      assert (args + [x])[1..] == args[1..] + [x];
    } else {
      assert (args + [x])[1..] == [x];
    }
  }

  /** A symbol alone stands for itself; a further argument goes before the closing parenthesis, behind a comma but for the first. */
  lemma KeySpelling(p: Name, args: seq<Name>, x: Name)
    ensures AtomKey(p, []) == p
    ensures args == [] ==> AtomKey(p, args + [x]) == p + "(" + x + ")"
    ensures args != [] ==> var k := AtomKey(p, args); AtomKey(p, args + [x]) == k[..|k| - 1] + "," + x + ")"
  {
    JoinSnoc(args, x);
    hide Join;
    KeyGrows(p, Join(args), x);
  }

  lemma KeyGrows(p: Name, joined: string, x: Name)
    ensures var k := p + "(" + joined + ")"; p + "(" + (joined + "," + x) + ")" == k[..|k| - 1] + "," + x + ")"
  {
    var k := p + "(" + joined + ")";
    assert k[..|k| - 1] == p + "(" + joined;
  }

  predicate CleanArgs(args: seq<Name>) {
    forall a | a in args :: ',' !in a
  }

  /** Two comma-free words followed by a comma (or by nothing) can be told apart. */
  lemma SplitAtComma(a: string, s: string, b: string, t: string)
    requires ',' !in a && ',' !in b
    requires a + "," + s == b + "," + t
    ensures a == b && s == t
  {
    var u := a + "," + s;
    assert u[|a|] == ',' && u[|b|] == ',';
    assert forall i | 0 <= i < |a| :: u[i] == a[i];
    assert forall i | 0 <= i < |b| :: u[i] == b[i];
    assert a == u[..|a|] == b;
    assert s == u[|a| + 1..] == t;
  }

  lemma JoinHasComma(xs: seq<Name>)
    requires |xs| > 1
    ensures ',' in Join(xs)
  {
    assert Join(xs)[|xs[0]|] == ',';
  }

  lemma {:induction false} JoinInjective(xs: seq<Name>, ys: seq<Name>)
    requires xs != [] && ys != []
    requires CleanArgs(xs) && CleanArgs(ys)
    requires Join(xs) == Join(ys)
    ensures xs == ys
  {
    if |xs| > 1 {
      JoinHasComma(xs);
    }
    if |ys| > 1 {
      JoinHasComma(ys);
    }
    if |xs| > 1 && |ys| > 1 {
      SplitAtComma(xs[0], Join(xs[1..]), ys[0], Join(ys[1..]));
      JoinInjective(xs[1..], ys[1..]);
    }
  }

  /** A ground name determines its symbol and its arguments. */
  lemma KeyInjective(p: Name, xs: seq<Name>, q: Name, ys: seq<Name>)
    requires '(' !in p && '(' !in q
    requires CleanArgs(xs) && CleanArgs(ys)
    requires AtomKey(p, xs) == AtomKey(q, ys)
    ensures p == q && xs == ys
  {
    BaseNameInvertsKey(p, xs);
    BaseNameInvertsKey(q, ys);
    var k := AtomKey(p, xs);
    if xs == [] || ys == [] {
      assert |k| == |p| <==> xs == [];
      assert |k| == |q| <==> ys == [];
    } else {
      assert Join(xs) == k[|p| + 1..|k| - 1];
      assert Join(ys) == k[|q| + 1..|k| - 1];
      JoinInjective(xs, ys);
    }
  }

  /** Without the comma hypothesis two argument lists of one length share a name. */
  lemma CommaCollision()
    ensures AtomKey("p", ["a,b", "c"]) == AtomKey("p", ["a", "b,c"])
  {
    assert Join(["a,b", "c"]) == "a,b" + "," + Join(["c"]);
    assert Join(["a", "b,c"]) == "a" + "," + Join(["b,c"]);
    assert "a,b" + "," + "c" == "a" + "," + "b,c";
  }
}
