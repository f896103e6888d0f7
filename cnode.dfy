/** CNode: the renderers that turn parsed nodes into C source text. Each
    renderer feeds an ordered list of fragments to a CBuilder and returns
    the text it holds. A builder chain without a loop is modelled as the
    Join of its fragment list; the renderers that loop (Proto, Block,
    FnCall) are methods that drive a CBuilder object and are proved against
    a function giving the fragment list. */
module CNode {
  import opened Consts
  import opened Builder
  import opened Decimal
  import Parsing

  /** The two exceptions the renderer throws; their messages are not modelled. */
  datatype RenderError = UnknownValueType | UnknownExprType

  datatype Result<T> = Ok(value: T) | Err(error: RenderError)

  // ---------------------------------------------------------------- leaves

  /** `type`: a type is its name, verbatim. */
  function Type(t: Parsing.Type): (r: string)
    ensures r == t.value.spelling
  {
    var f := Fragment(Ty(t.value), true);
    JoinOne(f);
    Join([f])
  }

  /** `arg`: the identifier, then the type name. */
  function Arg(a: Parsing.Arg): (r: string)
    ensures a.id != "" ==> r == a.id + " " + a.ty.value.spelling
    ensures a.id == "" ==> r == a.ty.value.spelling
  {
    var f, g := Fragment(Word(a.id), true), Fragment(Word(Type(a.ty)), true);
    JoinTwo(f, g);
    Join([f, g])
  }

  /** `string`: the payload between two quotes, nothing spaced, nothing escaped. */
  function String(s: string): (r: string)
    ensures r == "\"" + s + "\""
  {
    var q, w := Fragment(Sym(DubQuote), false), Fragment(Word(s), false);
    JoinTwo(q, w);
    JoinThree(q, w, q);
    Join([q, w, q])
  }

  /** `fn`: the prototype text, then the body text. */
  function Fn(proto: string, body: string): (r: string)
    ensures proto != "" ==> r == proto + " " + body
    ensures proto == "" ==> r == body
  {
    var f, g := Fragment(Word(proto), true), Fragment(Word(body), true);
    JoinTwo(f, g);
    Join([f, g])
  }

  /** `int`: the decimal text of the literal. */
  function Int(n: int): (r: string)
    ensures IsCanonicalDecimal(r)
  {
    if n < 0 then "-" + Digits(-n) else Digits(n)
  }

  /** The decimal text reads back as the literal it came from. */
  lemma {:induction false} IntRoundTrip(n: int)
    ensures DecimalValue(Int(n)) == n
  {
    var m: nat := if n < 0 then -n else n;
    var d := Digits(m);
    DigitsRoundTrip(m);
    if n < 0 {
      assert Int(n) == "-" + d;
      NegatedValue(d);
    } else {
      assert Int(n) == d;
      UnsignedValue(d);
    }
  }

  /** Every canonical decimal text is the rendering of exactly one integer. */
  lemma IntOfDecimal(s: string)
    requires IsCanonicalDecimal(s)
    ensures Int(DecimalValue(s)) == s
  {
    if |s| > 0 && s[0] == '-' {
      DigitsOfValue(s[1..]);
      assert DigitsValue(s[1..]) != 0;
      assert s == "-" + s[1..];
    } else {
      DigitsOfValue(s);
    }
  }

  // ------------------------------------------------------- tag dispatch

  /** `expr`: a variable reference renders as its identifier; every other
      expression kind, the function call included, throws. */
  function Expr(e: Parsing.Expr): (r: Result<string>)
    ensures r.Ok? <==> e.VariableRef?
    ensures r.Ok? ==> r.value == e.id
    ensures r.Err? ==> r.error == UnknownExprType
  {
    match e
    case VariableRef(id) => Ok(id)
    case FnCallExpr(_, _) => Err(UnknownExprType)
  }

  /** `value`: integers via Int, strings via String, expressions via Expr;
      any other value kind throws. */
  function Value(v: Parsing.Value): (r: Result<string>)
    ensures r.Ok? <==> Parsing.Supported(v)
    ensures v.IntLit? ==> r.Ok? && IsCanonicalDecimal(r.value) && DecimalValue(r.value) == v.n
    ensures v.StringLit? ==> r == Ok("\"" + v.s + "\"")
    ensures v.ExprValue? ==> r == Expr(v.e)
    ensures v.OtherValue? ==> r == Err(UnknownValueType)
  {
    match v
    case IntLit(n) => IntRoundTrip(n); Ok(Int(n))
    case StringLit(s) => Ok(String(s))
    case ExprValue(e) => Expr(e)
    case OtherValue(_) => Err(UnknownValueType)
  }

  // ------------------------------------------------- chains without loops

  /** The fragments `varDeclare` adds once the value has rendered as `text`. */
  function DeclFragments(vType: string, id: string, text: string): seq<Fragment>
  {
    [Fragment(Word(vType), true), Fragment(Word(id), true), Fragment(Sym(Equal), true),
     Fragment(Word(text), true), Fragment(Sym(SemiColon), true)]
  }

  lemma DeclText(vType: string, id: string, text: string)
    requires vType != ""
    ensures Join(DeclFragments(vType, id, text)) == SpaceSeparated([vType, id, "=", text, ";"])
  {
    var fs := DeclFragments(vType, id, text);
    JoinSpaced(fs);
    assert Texts(fs) == [vType, id, "=", text, ";"];
  }

  /** `varDeclare`: type, identifier, `=`, the value, `;`. It fails exactly
      when the value fails, with the value's error. */
  function VarDeclare(vType: string, id: string, v: Parsing.Value): (r: Result<string>)
    ensures r.Err? <==> Value(v).Err?
    ensures r.Err? ==> r.error == Value(v).error
    ensures r.Ok? && vType != "" ==> r.value == SpaceSeparated([vType, id, "=", Value(v).value, ";"])
  {
    match Value(v)
    case Err(e) => Err(e)
    case Ok(text) =>
      if vType != "" then DeclText(vType, id, text); Ok(Join(DeclFragments(vType, id, text)))
      else Ok(Join(DeclFragments(vType, id, text)))
  }

  /** `import`: the include keyword, then the file name as a string literal. */
  function Import(file: string): (r: string)
    ensures r == "#include \"" + file + "\""
  {
    var f, g := Fragment(Kw(PreprocessInclude), true), Fragment(Word(String(file)), true);
    JoinTwo(f, g);
    Join([f, g])
  }

  // ------------------------------------------------------------- proto

  /** The fragments `proto` adds for its parameters: per parameter its type,
      then its identifier, with nothing between parameters. */
  function ParamFragments(args: seq<Parsing.Arg>): (fs: seq<Fragment>)
    ensures |fs| == 2 * |args|
  {
    if args == [] then []
    else
      var a := args[|args| - 1];
      ParamFragments(args[..|args| - 1]) + [Fragment(Ty(a.ty.value), true), Fragment(Word(a.id), true)]
  }

  lemma ParamFragmentsSnoc(args: seq<Parsing.Arg>, k: nat)
    requires k < |args|
    ensures ParamFragments(args[..k + 1])
         == ParamFragments(args[..k]) + [Fragment(Ty(args[k].ty.value), true), Fragment(Word(args[k].id), true)]
  {
    assert args[..k + 1][..k] == args[..k];
  }

  function ProtoFragments(returnType: CType, args: seq<Parsing.Arg>, id: string): seq<Fragment>
  {
    [Fragment(Ty(returnType), true), Fragment(Word(id), true), Fragment(Sym(ParenL), true)]
    + ParamFragments(args)
    + [Fragment(Sym(ParenR), true)]
  }

  /** `proto`: the return type, the identifier, `(`, the parameters, `)`. */
  method Proto(returnType: CType, args: seq<Parsing.Arg>, id: string) returns (r: string)
    ensures r == Join(ProtoFragments(returnType, args, id))
    ensures returnType.spelling != "" ==> r == SpaceSeparated([returnType.spelling, id, "("] + ParamWords(args) + [")"])
  {
    var builder := new CBuilder();
    builder.Add(Ty(returnType));
    builder.Add(Word(id));
    builder.Add(Sym(ParenL));
    ghost var head := builder.fragments;
    for k := 0 to |args|
      invariant builder.fragments == head + ParamFragments(args[..k])
    {
      ParamFragmentsSnoc(args, k);
      builder.Add(Ty(args[k].ty.value));
      builder.Add(Word(args[k].id));
    }
    assert args[..|args|] == args;
    builder.Add(Sym(ParenR));
    assert builder.fragments == ProtoFragments(returnType, args, id);
    r := builder.ToString();
    if returnType.spelling != "" {
      ProtoText(returnType, args, id);
    }
  }

  lemma {:induction false} ParamFragmentsAt(args: seq<Parsing.Arg>, k: nat)
    requires k < |args|
    ensures ParamFragments(args)[2 * k] == Fragment(Ty(args[k].ty.value), true)
    ensures ParamFragments(args)[2 * k + 1] == Fragment(Word(args[k].id), true)
  {
    if k < |args| - 1 {
      ParamFragmentsAt(args[..|args| - 1], k);
    }
  }

  /** Every fragment of `proto` asks for a leading space, and their order is:
      return type, identifier, `(`, then type and identifier of each
      parameter in parameter order, then `)`. No comma is ever emitted. */
  lemma ProtoLayout(returnType: CType, args: seq<Parsing.Arg>, id: string)
    ensures var fs := ProtoFragments(returnType, args, id);
      && |fs| == 2 * |args| + 4
      && fs[0] == Fragment(Ty(returnType), true)
      && fs[1] == Fragment(Word(id), true)
      && fs[2] == Fragment(Sym(ParenL), true)
      && (forall k :: 0 <= k < |args| ==>
            fs[2 * k + 3] == Fragment(Ty(args[k].ty.value), true)
            && fs[2 * k + 4] == Fragment(Word(args[k].id), true))
      && fs[|fs| - 1] == Fragment(Sym(ParenR), true)
      && (forall j :: 0 <= j < |fs| ==> fs[j].spaced && fs[j].piece != Sym(Comma))
  {
    var fs := ProtoFragments(returnType, args, id);
    forall k | 0 <= k < |args|
      ensures fs[2 * k + 3] == Fragment(Ty(args[k].ty.value), true)
      ensures fs[2 * k + 4] == Fragment(Word(args[k].id), true)
    {
      ParamFragmentsAt(args, k);
    }
    forall j | 3 <= j < |fs| - 1
      ensures fs[j].spaced && fs[j].piece != Sym(Comma)
    {
      ParamFragmentsAt(args, (j - 3) / 2);
    }
  }

  /** The words of the parameter list as `proto` writes them: per parameter
      its type name, then its identifier. */
  function ParamWords(args: seq<Parsing.Arg>): (ws: seq<string>)
    ensures |ws| == 2 * |args|
  {
    if args == [] then []
    else
      var a := args[|args| - 1];
      ParamWords(args[..|args| - 1]) + [a.ty.value.spelling, a.id]
  }

  lemma {:induction false} ParamTexts(args: seq<Parsing.Arg>)
    ensures Texts(ParamFragments(args)) == ParamWords(args)
  {
    if args != [] {
      var a := args[|args| - 1];
      ParamTexts(args[..|args| - 1]);
      TextsConcat(ParamFragments(args[..|args| - 1]), [Fragment(Ty(a.ty.value), true), Fragment(Word(a.id), true)]);
    }
  }

  /** With a non-empty return type name, `proto` is its words separated by
      single spaces. */
  lemma ProtoText(returnType: CType, args: seq<Parsing.Arg>, id: string)
    requires returnType.spelling != ""
    ensures Join(ProtoFragments(returnType, args, id))
         == SpaceSeparated([returnType.spelling, id, "("] + ParamWords(args) + [")"])
  {
    var fs := ProtoFragments(returnType, args, id);
    ProtoLayout(returnType, args, id);
    JoinSpaced(fs);
    ParamTexts(args);
    var head := [Fragment(Ty(returnType), true), Fragment(Word(id), true), Fragment(Sym(ParenL), true)];
    TextsConcat(head, ParamFragments(args));
    TextsConcat(head + ParamFragments(args), [Fragment(Sym(ParenR), true)]);
    assert Texts(fs) == [returnType.spelling, id, "("] + ParamWords(args) + [")"];
  }

  /** With two parameters, `proto` writes the words `T f ( T1 a T2 b )`:
      nothing separates the first parameter from the second. */
  lemma ProtoTwoParams(returnType: CType, a: Parsing.Arg, b: Parsing.Arg, id: string)
    requires returnType.spelling != ""
    ensures Join(ProtoFragments(returnType, [a, b], id))
         == SpaceSeparated([returnType.spelling, id, "(", a.ty.value.spelling, a.id, b.ty.value.spelling, b.id, ")"])
  {
    var args := [a, b];
    assert args[..1] == [a];
    assert [a][..0] == [];
    assert ParamWords([a]) == [a.ty.value.spelling, a.id];
    assert ParamWords(args) == [a.ty.value.spelling, a.id, b.ty.value.spelling, b.id];
    ProtoText(returnType, args, id);
    assert [returnType.spelling, id, "("] + ParamWords(args) + [")"]
        == [returnType.spelling, id, "(", a.ty.value.spelling, a.id, b.ty.value.spelling, b.id, ")"];
  }

  // -------------------------------------------------------------- counting

  /** How many fragments are the comma symbol. */
  function CommaCount(fs: seq<Fragment>): nat
  {
    if fs == [] then 0
    else CommaCount(fs[..|fs| - 1]) + (if fs[|fs| - 1].piece == Sym(Comma) then 1 else 0)
  }

  lemma {:induction false} CommaCountConcat(a: seq<Fragment>, b: seq<Fragment>)
    ensures CommaCount(a + b) == CommaCount(a) + CommaCount(b)
  {
    if b != [] {
      assert (a + b)[..|a + b| - 1] == a + b[..|b| - 1];
      CommaCountConcat(a, b[..|b| - 1]);
    } else {
      assert a + b == a;
    }
  }

  // -------------------------------------------------------------- block

  /** One fragment per statement, in order. */
  function StatementFragments(statements: seq<string>): (fs: seq<Fragment>)
    ensures |fs| == |statements|
  {
    if statements == [] then []
    else StatementFragments(statements[..|statements| - 1]) + [Fragment(Word(statements[|statements| - 1]), true)]
  }

  function BlockFragments(statements: seq<string>): seq<Fragment>
  {
    [Fragment(Sym(BraceL), true)] + StatementFragments(statements) + [Fragment(Sym(BraceR), true)]
  }

  lemma {:induction false} StatementFragmentsAt(statements: seq<string>, k: nat)
    requires k < |statements|
    ensures StatementFragments(statements)[k] == Fragment(Word(statements[k]), true)
  {
    if k < |statements| - 1 {
      StatementFragmentsAt(statements[..|statements| - 1], k);
    }
  }

  /** A block is `{`, the statements in their order, `}`, separated by single spaces. */
  lemma BlockText(statements: seq<string>)
    ensures Join(BlockFragments(statements)) == SpaceSeparated(["{"] + statements + ["}"])
  {
    var fs := BlockFragments(statements);
    forall k | 0 <= k < |statements|
      ensures fs[k + 1] == Fragment(Word(statements[k]), true)
    {
      StatementFragmentsAt(statements, k);
    }
    forall j | 0 <= j < |fs|
      ensures fs[j].spaced && PieceText(fs[j].piece) == (["{"] + statements + ["}"])[j]
    {
      if 0 < j < |fs| - 1 {
        StatementFragmentsAt(statements, j - 1);
      }
    }
    JoinSpaced(fs);
    assert Texts(fs) == ["{"] + statements + ["}"];
  }

  /** `block`: `{`, each statement in order, `}`. */
  method Block(statements: seq<string>) returns (r: string)
    ensures r == Join(BlockFragments(statements))
    ensures r == SpaceSeparated(["{"] + statements + ["}"])
  {
    var builder := new CBuilder();
    builder.Add(Sym(BraceL));
    for k := 0 to |statements|
      invariant builder.fragments == [Fragment(Sym(BraceL), true)] + StatementFragments(statements[..k])
    {
      assert statements[..k + 1][..k] == statements[..k];
      builder.Add(Word(statements[k]));
    }
    assert statements[..|statements|] == statements;
    builder.Add(Sym(BraceR));
    r := builder.ToString();
    BlockText(statements);
  }

  // ------------------------------------------------------------- fnCall

  /** The arguments' texts in order, or the error of the first argument
      that does not render. */
  function RenderAll(vs: seq<Parsing.Value>): (r: Result<seq<string>>)
    ensures r.Ok? ==> |r.value| == |vs|
  {
    if vs == [] then Ok([])
    else
      match RenderAll(vs[..|vs| - 1])
      case Err(e) => Err(e)
      case Ok(texts) =>
        match Value(vs[|vs| - 1])
        case Err(e) => Err(e)
        case Ok(t) => Ok(texts + [t])
  }

  /** All arguments render exactly when each one does, and then each text is its argument's. */
  lemma {:induction false} RenderAllOk(vs: seq<Parsing.Value>)
    ensures RenderAll(vs).Ok? <==> forall k :: 0 <= k < |vs| ==> Parsing.Supported(vs[k])
    ensures RenderAll(vs).Ok? ==> forall k :: 0 <= k < |vs| ==> RenderAll(vs).value[k] == Value(vs[k]).value
  {
    if vs != [] {
      var init := vs[..|vs| - 1];
      RenderAllOk(init);
      assert forall k :: 0 <= k < |init| ==> init[k] == vs[k];
    }
  }

  /** A failure is the failure of some argument, and every argument before it renders. */
  lemma {:induction false} RenderAllFirstError(vs: seq<Parsing.Value>)
    requires RenderAll(vs).Err?
    ensures exists k :: 0 <= k < |vs| && Value(vs[k]) == Err(RenderAll(vs).error)
                        && forall j :: 0 <= j < k ==> Parsing.Supported(vs[j])
  {
    var init := vs[..|vs| - 1];
    assert forall k :: 0 <= k < |init| ==> init[k] == vs[k];
    if RenderAll(init).Err? {
      RenderAllFirstError(init);
    } else {
      RenderAllOk(init);
      assert Value(vs[|vs| - 1]) == Err(RenderAll(vs).error);
    }
  }

  /** Once a prefix of the arguments fails, the whole list fails the same way. */
  lemma {:induction false} RenderAllErrPrefix(vs: seq<Parsing.Value>, n: nat)
    requires n <= |vs| && RenderAll(vs[..n]).Err?
    ensures RenderAll(vs) == Err(RenderAll(vs[..n]).error)
  {
    if n < |vs| {
      var init := vs[..|vs| - 1];
      assert init[..n] == vs[..n];
      RenderAllErrPrefix(init, n);
    } else {
      assert vs[..n] == vs;
    }
  }

  /** The fragments `fnCall` adds for the first |texts| of `total` arguments:
      each argument's text, followed by a comma unless its index is `total - 1`. */
  function ArgFragments(texts: seq<string>, total: nat): seq<Fragment>
  {
    if texts == [] then []
    else
      var i := |texts| - 1;
      ArgFragments(texts[..i], total) + [Fragment(Word(texts[i]), true)]
      + (if total - 1 != i then [Fragment(Sym(Comma), true)] else [])
  }

  function CallFragments(id: string, texts: seq<string>): seq<Fragment>
  {
    [Fragment(Word(id), true), Fragment(Sym(ParenL), true)]
    + ArgFragments(texts, |texts|)
    + [Fragment(Sym(ParenR), true), Fragment(Sym(SemiColon), true)]
  }

  /** Reference definition: texts with a "," between each two neighbours. */
  function CommaSeparated(texts: seq<string>): seq<string>
  {
    if |texts| <= 1 then texts else [texts[0], ","] + CommaSeparated(texts[1..])
  }

  lemma {:induction false} CommaSeparatedAt(texts: seq<string>)
    ensures |CommaSeparated(texts)| == if texts == [] then 0 else 2 * |texts| - 1
    ensures forall k :: 0 <= k < |texts| ==> CommaSeparated(texts)[2 * k] == texts[k]
    ensures forall k :: 0 <= k < |texts| - 1 ==> CommaSeparated(texts)[2 * k + 1] == ","
  {
    if |texts| > 1 {
      CommaSeparatedAt(texts[1..]);
      var rest := CommaSeparated(texts[1..]);
      assert CommaSeparated(texts) == [texts[0], ","] + rest;
      forall k | 1 <= k < |texts|
        ensures CommaSeparated(texts)[2 * k] == texts[k]
      {
        assert CommaSeparated(texts)[2 * k] == rest[2 * (k - 1)];
      }
      forall k | 1 <= k < |texts| - 1
        ensures CommaSeparated(texts)[2 * k + 1] == ","
      {
        assert CommaSeparated(texts)[2 * k + 1] == rest[2 * (k - 1) + 1];
      }
    }
  }

  /** Length of the argument fragments while the loop is running (|texts|
      below total) and once it is done (|texts| == total). */
  lemma {:induction false} ArgFragmentsLength(texts: seq<string>, total: nat)
    requires |texts| <= total
    ensures |ArgFragments(texts, total)| == if |texts| == total && total > 0 then 2 * total - 1 else 2 * |texts|
  {
    if texts != [] {
      ArgFragmentsLength(texts[..|texts| - 1], total);
    }
  }

  /** The k-th argument's text sits at 2k, and a comma follows it unless it is the last. */
  lemma {:induction false} ArgFragmentsAt(texts: seq<string>, total: nat, k: nat)
    requires |texts| <= total && k < |texts|
    ensures 2 * k < |ArgFragments(texts, total)|
    ensures ArgFragments(texts, total)[2 * k] == Fragment(Word(texts[k]), true)
    ensures k != total - 1 ==>
              (2 * k + 1 < |ArgFragments(texts, total)| && ArgFragments(texts, total)[2 * k + 1] == Fragment(Sym(Comma), true))
  {
    var i := |texts| - 1;
    ArgFragmentsLength(texts[..i], total);
    ArgFragmentsLength(texts, total);
    if k < i {
      ArgFragmentsAt(texts[..i], total, k);
    }
  }

  lemma {:induction false} ArgFragmentsCommas(texts: seq<string>, total: nat)
    requires |texts| <= total
    ensures CommaCount(ArgFragments(texts, total)) == if |texts| == total && total > 0 then total - 1 else |texts|
  {
    if texts != [] {
      var i := |texts| - 1;
      var init := ArgFragments(texts[..i], total);
      var word := [Fragment(Word(texts[i]), true)];
      var sep: seq<Fragment> := if total - 1 != i then [Fragment(Sym(Comma), true)] else [];
      ArgFragmentsCommas(texts[..i], total);
      CommaCountConcat(init, word);
      CommaCountConcat(init + word, sep);
      assert CommaCount(word) == 0 by {
        assert word[..0] == [];
      }
      assert CommaCount(sep) == |sep| by {
        if sep != [] {
          assert sep[..0] == [];
        }
      }
    }
  }

  lemma ArgFragmentsSnoc(texts: seq<string>, t: string, total: nat)
    ensures ArgFragments(texts + [t], total)
         == ArgFragments(texts, total) + [Fragment(Word(t), true)]
            + (if total - 1 != |texts| then [Fragment(Sym(Comma), true)] else [])
  {
    assert (texts + [t])[..|texts|] == texts;
  }

  /** When every argument renders, RenderAll lists their texts in order. */
  lemma {:induction false} RenderAllOfTexts(vs: seq<Parsing.Value>, texts: seq<string>)
    requires |texts| == |vs|
    requires forall j :: 0 <= j < |vs| ==> Value(vs[j]) == Ok(texts[j])
    ensures RenderAll(vs) == Ok(texts)
  {
    if vs != [] {
      var n := |vs| - 1;
      RenderAllOfTexts(vs[..n], texts[..n]);
      assert texts[..n] + [texts[n]] == texts;
    }
  }

  /** When the arguments before index k render and the k-th does not,
      RenderAll fails with the k-th argument's error. */
  lemma {:induction false} RenderAllFailsAt(vs: seq<Parsing.Value>, k: nat)
    requires k < |vs|
    requires forall j :: 0 <= j < k ==> Value(vs[j]).Ok?
    requires Value(vs[k]).Err?
    ensures RenderAll(vs) == Err(Value(vs[k]).error)
  {
    if k < |vs| - 1 {
      var init := vs[..|vs| - 1];
      RenderAllFailsAt(init, k);
    } else {
      var init := vs[..k];
      RenderAllOfTexts(init, seq(k, j requires 0 <= j < k => Value(init[j]).value));
    }
  }

  /** `fnCall` with n arguments: the identifier, `(`, the arguments in order
      with a comma after each but the last (n - 1 commas when n >= 1), then
      `)` and `;`. */
  lemma CallLayout(id: string, texts: seq<string>)
    ensures var fs := CallFragments(id, texts); var n := |texts|;
      && |fs| == (if n == 0 then 4 else 2 * n + 3)
      && fs[0] == Fragment(Word(id), true)
      && fs[1] == Fragment(Sym(ParenL), true)
      && (forall k :: 0 <= k < n ==> fs[2 * k + 2] == Fragment(Word(texts[k]), true))
      && (forall k :: 0 <= k < n - 1 ==> fs[2 * k + 3] == Fragment(Sym(Comma), true))
      && fs[|fs| - 2] == Fragment(Sym(ParenR), true)
      && fs[|fs| - 1] == Fragment(Sym(SemiColon), true)
      && CommaCount(fs) == (if n == 0 then 0 else n - 1)
  {
    var head := [Fragment(Word(id), true), Fragment(Sym(ParenL), true)];
    var args := ArgFragments(texts, |texts|);
    var tail := [Fragment(Sym(ParenR), true), Fragment(Sym(SemiColon), true)];
    var fs := CallFragments(id, texts);
    assert fs == head + args + tail;
    ArgFragmentsLength(texts, |texts|);
    forall k | 0 <= k < |texts|
      ensures fs[2 * k + 2] == Fragment(Word(texts[k]), true)
      ensures k < |texts| - 1 ==> fs[2 * k + 3] == Fragment(Sym(Comma), true)
    {
      ArgFragmentsAt(texts, |texts|, k);
    }
    ArgFragmentsCommas(texts, |texts|);
    CommaCountConcat(head, args);
    CommaCountConcat(head + args, tail);
    assert CommaCount(head) == 0 by {
      assert head[..1][..0] == [];
    }
    assert CommaCount(tail) == 0 by {
      assert tail[..1][..0] == [];
    }
  }

  /** Position j of a finished call's argument fragments, the k-th text or the
      comma after it, is spaced and reads as position j of the comma-separated
      texts. */
  lemma ArgTextAt(texts: seq<string>, j: nat, k: nat)
    requires k < |texts|
    requires j == 2 * k || (j == 2 * k + 1 && k < |texts| - 1)
    ensures j < |ArgFragments(texts, |texts|)| && j < |CommaSeparated(texts)|
    ensures ArgFragments(texts, |texts|)[j].spaced
    ensures PieceText(ArgFragments(texts, |texts|)[j].piece) == CommaSeparated(texts)[j]
  {
    ArgFragmentsAt(texts, |texts|, k);
    CommaSeparatedAt(texts);
  }

  /** The argument fragments of a finished call read as the comma-separated
      argument texts, and every one of them is spaced. */
  lemma ArgTexts(texts: seq<string>)
    ensures forall j :: 0 <= j < |ArgFragments(texts, |texts|)| ==> ArgFragments(texts, |texts|)[j].spaced
    ensures Texts(ArgFragments(texts, |texts|)) == CommaSeparated(texts)
  {
    var af := ArgFragments(texts, |texts|);
    var cs := CommaSeparated(texts);
    ArgFragmentsLength(texts, |texts|);
    CommaSeparatedAt(texts);
    forall j | 0 <= j < |af|
      ensures af[j].spaced && PieceText(af[j].piece) == cs[j]
    {
      var k := j / 2;
      assert j == 2 * k || j == 2 * k + 1;
      ArgTextAt(texts, j, k);
    }
    assert Texts(af) == cs;
  }

  /** With a non-empty identifier, `fnCall` is its words separated by single
      spaces: `id ( a , b , c ) ;`. */
  lemma CallText(id: string, texts: seq<string>)
    requires id != ""
    ensures Join(CallFragments(id, texts)) == SpaceSeparated([id, "("] + CommaSeparated(texts) + [")", ";"])
  {
    var head := [Fragment(Word(id), true), Fragment(Sym(ParenL), true)];
    var af := ArgFragments(texts, |texts|);
    var tail := [Fragment(Sym(ParenR), true), Fragment(Sym(SemiColon), true)];
    var fs := CallFragments(id, texts);
    assert fs == head + af + tail;
    ArgTexts(texts);
    TextsConcat(head, af);
    TextsConcat(head + af, tail);
    assert Texts(head) == [id, "("];
    assert Texts(tail) == [")", ";"];
    assert forall j :: 0 <= j < |fs| ==> fs[j].spaced;
    JoinSpaced(fs);
  }

  /** One step of RenderAll over a growing prefix of the arguments. */
  lemma RenderAllPrefixStep(vs: seq<Parsing.Value>, k: nat)
    requires k < |vs| && RenderAll(vs[..k]).Ok?
    ensures Value(vs[k]).Err? ==> RenderAll(vs[..k + 1]) == Err(Value(vs[k]).error)
    ensures Value(vs[k]).Ok? ==> RenderAll(vs[..k + 1]) == Ok(RenderAll(vs[..k]).value + [Value(vs[k]).value])
  {
    assert vs[..k + 1][..k] == vs[..k];
  }

  /** Renders the k-th argument, extending the rendering of the first k. */
  method RenderArgument(args: seq<Parsing.Value>, k: nat, ghost texts: seq<string>) returns (v: Result<string>)
    requires k < |args| && RenderAll(args[..k]) == Ok(texts)
    ensures v.Err? ==> RenderAll(args) == Err(v.error)
    ensures v.Ok? ==> RenderAll(args[..k + 1]) == Ok(texts + [v.value])
  {
    RenderAllPrefixStep(args, k);
    v := Value(args[k]);
    if v.Err? {
      RenderAllErrPrefix(args, k + 1);
    }
  }

  /** Appends one rendered argument, and the comma after it unless it is the last. */
  method AddArgument(builder: CBuilder, ghost head: seq<Fragment>, ghost texts: seq<string>, text: string, index: nat, total: nat)
    modifies builder
    requires |texts| == index && builder.fragments == head + ArgFragments(texts, total)
    ensures builder.fragments == head + ArgFragments(texts + [text], total)
  {
    ArgFragmentsSnoc(texts, text, total);
    builder.Add(Word(text));
    if total - 1 != index {
      builder.Add(Sym(Comma));
    }
  }

  /** `fnCall`: the identifier, `(`, each argument's value with a comma after
      all but the last, `)`, `;`. The first argument whose value fails makes
      the whole call fail with that error. */
  method FnCall(id: string, args: seq<Parsing.Value>) returns (r: Result<string>)
    ensures RenderAll(args).Err? ==> r == Err(RenderAll(args).error)
    ensures RenderAll(args).Ok? ==> r == Ok(Join(CallFragments(id, RenderAll(args).value)))
    ensures RenderAll(args).Ok? && id != "" ==>
              r.value == SpaceSeparated([id, "("] + CommaSeparated(RenderAll(args).value) + [")", ";"])
  {
    var builder := new CBuilder();
    builder.Add(Word(id));
    builder.Add(Sym(ParenL));
    ghost var head := builder.fragments;
    ghost var texts: seq<string> := [];
    for k := 0 to |args|
      invariant RenderAll(args[..k]) == Ok(texts)
      invariant |texts| == k
      invariant builder.fragments == head + ArgFragments(texts, |args|)
    {
      var v := RenderArgument(args, k, texts);
      if v.Err? {
        return Err(v.error);
      }
      AddArgument(builder, head, texts, v.value, k, |args|);
      texts := texts + [v.value];
    }
    assert args[..|args|] == args;
    builder.Add(Sym(ParenR));
    builder.Add(Sym(SemiColon));
    assert builder.fragments == CallFragments(id, texts);
    r := Ok(builder.ToString());
    if id != "" {
      CallText(id, texts);
    }
  }



  // ----------------------------------------- proto, as evidently intended

  /** Parameters as C writes them: type and identifier, a comma between two parameters. */
  function SeparatedParamFragments(args: seq<Parsing.Arg>): seq<Fragment>
  {
    if args == [] then []
    else
      var a := args[|args| - 1];
      SeparatedParamFragments(args[..|args| - 1])
      + (if |args| > 1 then [Fragment(Sym(Comma), true)] else [])
      + [Fragment(Ty(a.ty.value), true), Fragment(Word(a.id), true)]
  }

  function SeparatedProtoFragments(returnType: CType, args: seq<Parsing.Arg>, id: string): seq<Fragment>
  {
    [Fragment(Ty(returnType), true), Fragment(Word(id), true), Fragment(Sym(ParenL), true)]
    + SeparatedParamFragments(args)
    + [Fragment(Sym(ParenR), true)]
  }

  /** The corrected prototype has one comma fewer than parameters, and none without parameters. */
  lemma {:induction false} SeparatedParamCommas(args: seq<Parsing.Arg>)
    ensures CommaCount(SeparatedParamFragments(args)) == if args == [] then 0 else |args| - 1
  {
    if args != [] {
      var a := args[|args| - 1];
      var init := SeparatedParamFragments(args[..|args| - 1]);
      var sep: seq<Fragment> := if |args| > 1 then [Fragment(Sym(Comma), true)] else [];
      var pair := [Fragment(Ty(a.ty.value), true), Fragment(Word(a.id), true)];
      SeparatedParamCommas(args[..|args| - 1]);
      CommaCountConcat(init, sep);
      CommaCountConcat(init + sep, pair);
      assert CommaCount(pair) == 0 by {
        assert pair[..1][..0] == [];
      }
      assert CommaCount(sep) == |sep| by {
        if |args| > 1 {
          assert sep[..0] == [];
        }
      }
    }
  }

  /** The words of the corrected parameter list: type name and identifier of
      each parameter, with a `,` between consecutive parameters. */
  function SeparatedParamWords(args: seq<Parsing.Arg>): seq<string>
  {
    if args == [] then []
    else
      var a := args[|args| - 1];
      SeparatedParamWords(args[..|args| - 1])
      + (if |args| > 1 then [","] else [])
      + [a.ty.value.spelling, a.id]
  }

  lemma {:induction false} SeparatedParamTexts(args: seq<Parsing.Arg>)
    ensures forall j :: 0 <= j < |SeparatedParamFragments(args)| ==> SeparatedParamFragments(args)[j].spaced
    ensures Texts(SeparatedParamFragments(args)) == SeparatedParamWords(args)
  {
    if args != [] {
      var a := args[|args| - 1];
      var init := SeparatedParamFragments(args[..|args| - 1]);
      var sep: seq<Fragment> := if |args| > 1 then [Fragment(Sym(Comma), true)] else [];
      var pair := [Fragment(Ty(a.ty.value), true), Fragment(Word(a.id), true)];
      SeparatedParamTexts(args[..|args| - 1]);
      TextsConcat(init, sep);
      TextsConcat(init + sep, pair);
      assert Texts(sep) == if |args| > 1 then [","] else [];
    }
  }

  /** With a non-empty return type name, the corrected prototype is its words
      separated by single spaces: `T f ( T1 a , T2 b )`. */
  lemma SeparatedProtoText(returnType: CType, args: seq<Parsing.Arg>, id: string)
    requires returnType.spelling != ""
    ensures Join(SeparatedProtoFragments(returnType, args, id))
         == SpaceSeparated([returnType.spelling, id, "("] + SeparatedParamWords(args) + [")"])
  {
    var head := [Fragment(Ty(returnType), true), Fragment(Word(id), true), Fragment(Sym(ParenL), true)];
    var params := SeparatedParamFragments(args);
    var tail := [Fragment(Sym(ParenR), true)];
    var fs := SeparatedProtoFragments(returnType, args, id);
    assert fs == head + params + tail;
    SeparatedParamTexts(args);
    TextsConcat(head, params);
    TextsConcat(head + params, tail);
    assert Texts(head) == [returnType.spelling, id, "("];
    assert forall j :: 0 <= j < |fs| ==> fs[j].spaced;
    JoinSpaced(fs);
    assert Texts(fs) == [returnType.spelling, id, "("] + SeparatedParamWords(args) + [")"];
  }
}
