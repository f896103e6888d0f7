/** An abstract model of CBuilder, whose source is not part of this model.
    A builder receives an ordered list of fragments; each fragment is the
    thing added and a flag saying whether it wants a leading space. The
    spacing rule assumed here: a single space goes before a fragment exactly
    when its flag is set and the builder already holds some text. */
module Builder {
  import opened Consts

  /** What one call of `add` receives. */
  datatype Piece = Sym(sym: Symbol) | Kw(kw: Keyword) | Ty(ty: CType) | Word(word: string)

  function PieceText(p: Piece): string
  {
    match p
    case Sym(s) => SymbolText(s)
    case Kw(k) => KeywordText(k)
    case Ty(t) => t.spelling
    case Word(w) => w
  }

  /** One call of `add(piece, spaced)`. */
  datatype Fragment = Fragment(piece: Piece, spaced: bool)

  /** What goes between the text accumulated so far and the next fragment. */
  function Separator(acc: string, spaced: bool): string
  {
    if spaced && acc != "" then " " else ""
  }

  /** The text a builder holds after the fragments were added in order. */
  function Join(fs: seq<Fragment>): string
  {
    if fs == [] then ""
    else
      var acc := Join(fs[..|fs| - 1]);
      var last := fs[|fs| - 1];
      acc + Separator(acc, last.spaced) + PieceText(last.piece)
  }

  lemma JoinSnoc(fs: seq<Fragment>, f: Fragment)
    ensures Join(fs + [f]) == Join(fs) + Separator(Join(fs), f.spaced) + PieceText(f.piece)
  {
    assert (fs + [f])[..|fs|] == fs;
  }

  lemma JoinOne(f: Fragment)
    ensures Join([f]) == PieceText(f.piece)
  {
    JoinSnoc([], f);
    assert [] + [f] == [f];
  }

  lemma JoinTwo(f: Fragment, g: Fragment)
    ensures Join([f, g]) == PieceText(f.piece) + Separator(PieceText(f.piece), g.spaced) + PieceText(g.piece)
  {
    JoinOne(f);
    JoinSnoc([f], g);
    assert [f] + [g] == [f, g];
  }

  lemma JoinThree(f: Fragment, g: Fragment, h: Fragment)
    ensures Join([f, g, h]) == Join([f, g]) + Separator(Join([f, g]), h.spaced) + PieceText(h.piece)
  {
    JoinSnoc([f, g], h);
    assert [f, g] + [h] == [f, g, h];
  }

  /** The texts of the pieces, in order. */
  function Texts(fs: seq<Fragment>): (ws: seq<string>)
  {
    seq(|fs|, k requires 0 <= k < |fs| => PieceText(fs[k].piece))
  }

  lemma TextsConcat(a: seq<Fragment>, b: seq<Fragment>)
    ensures Texts(a + b) == Texts(a) + Texts(b)
  {
  }

  /** Reference definition: words separated by single spaces, built from the front. */
  function SpaceSeparated(ws: seq<string>): string
  {
    if ws == [] then ""
    else if |ws| == 1 then ws[0]
    else ws[0] + " " + SpaceSeparated(ws[1..])
  }

  lemma {:induction false} SpaceSeparatedSnoc(ws: seq<string>, w: string)
    requires ws != []
    ensures SpaceSeparated(ws + [w]) == SpaceSeparated(ws) + " " + w
  {
    if |ws| == 1 {
      assert ws + [w] == [ws[0], w];
    } else {
      assert (ws + [w])[1..] == ws[1..] + [w];
      SpaceSeparatedSnoc(ws[1..], w);
    }
  }

  lemma SpaceSeparatedCons(w: string, ws: seq<string>)
    requires ws != []
    ensures SpaceSeparated([w] + ws) == w + " " + SpaceSeparated(ws)
  {
    assert ([w] + ws)[1..] == ws;
  }

  lemma {:induction false} SpaceSeparatedStartsWith(ws: seq<string>)
    requires ws != []
    ensures |SpaceSeparated(ws)| >= |ws[0]|
    ensures SpaceSeparated(ws)[..|ws[0]|] == ws[0]
  {
    if |ws| > 1 {
      var rest := SpaceSeparated(ws[1..]);
      assert SpaceSeparated(ws) == ws[0] + (" " + rest);
    }
  }

  /** When every fragment asks for a leading space and the first one has
      text, the builder's output is the fragments' texts separated by
      single spaces. */
  lemma {:induction false} JoinSpaced(fs: seq<Fragment>)
    requires forall k :: 0 <= k < |fs| ==> fs[k].spaced
    requires fs != [] ==> PieceText(fs[0].piece) != ""
    ensures Join(fs) == SpaceSeparated(Texts(fs))
  {
    if |fs| > 1 {
      var init, last := fs[..|fs| - 1], fs[|fs| - 1];
      assert fs == init + [last];
      JoinSpaced(init);
      SpaceSeparatedStartsWith(Texts(init));
      assert Texts(fs) == Texts(init) + [PieceText(last.piece)];
      SpaceSeparatedSnoc(Texts(init), PieceText(last.piece));
    } else if |fs| == 1 {
      assert fs[..0] == [];
    }
  }

  /** The text accumulated by a longer list of fragments extends the text of
      any prefix of it: nothing once added is ever taken back. */
  lemma {:induction false} JoinExtendsPrefix(fs: seq<Fragment>, n: nat)
    requires n <= |fs|
    ensures |Join(fs[..n])| <= |Join(fs)|
    ensures Join(fs)[..|Join(fs[..n])|] == Join(fs[..n])
  {
    if n < |fs| {
      var init := fs[..|fs| - 1];
      assert init[..n] == fs[..n];
      JoinExtendsPrefix(init, n);
    } else {
      assert fs[..n] == fs;
    }
  }

  /** CBuilder, held abstractly as the fragments added so far; its text is
      their Join. */
  class CBuilder {
    var fragments: seq<Fragment>

    constructor ()
      ensures fragments == []
    {
      fragments := [];
    }

    /** `add(piece, spaced)`; in the source it returns the builder for chaining. */
    method Add(p: Piece, spaced: bool := true)
      modifies this
      ensures fragments == old(fragments) + [Fragment(p, spaced)]
    {
      fragments := fragments + [Fragment(p, spaced)];
    }

    /** `toString()`: the text, read without changing the builder. */
    function ToString(): string
      reads this
    {
      Join(fragments)
    }
  }
}
