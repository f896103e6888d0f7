/** The parser's token cursor: a read-only token list and one mutable index
    into it. Reading outside the list gives no token (JavaScript's
    `undefined`) rather than failing. */
module TokenStreams {

  /** Token kinds come from the lexer; the cursor only compares them. */
  datatype TokenType = TokenType(tag: nat)

  datatype Token = Token(tokenType: TokenType, text: string)

  datatype Option<T> = None | Some(value: T)

  /** Indexing the token list at any integer position: a token inside the
      list, nothing before its start or past its end. */
  function TokenAt(data: seq<Token>, k: int): (t: Option<Token>)
    ensures t.Some? <==> 0 <= k < |data|
    ensures t.Some? ==> t.value == data[k]
  {
    if 0 <= k < |data| then Some(data[k]) else None
  }

  class TokenStream {
    const data: seq<Token>
    var i: int

    /** A new stream reads the given tokens from position 0. */
    constructor(data: seq<Token>)
      ensures this.data == data && i == 0
    {
      this.data := data;
      i := 0;
    }

    /** Advances first, then reads: the token after the old position. */
    method Next() returns (t: Option<Token>)
      modifies this
      ensures i == old(i) + 1
      ensures t == TokenAt(data, old(i) + 1)
    {
      i := i + 1;
      t := Get();
    }

    /** The token l places ahead of the current one; the position stays. */
    method Peek(l: int := 1) returns (t: Option<Token>)
      ensures t.Some? <==> 0 <= i + l < |data|
      ensures t.Some? ==> t.value == data[i + l]
    {
      if 0 <= i + l < |data| {
        t := Some(data[i + l]);
      } else {
        t := None;
      }
    }

    /** Moves the position by l, which may be any integer. */
    method Skip(l: int := 1)
      modifies this
      ensures i == old(i) + l
    {
      i := i + l;
    }

    /** Checks the current token's type, then steps over it. A missing token
        or a token of another type fails before the step, so the position is
        kept. */
    method SkipOver(expected: TokenType) returns (ok: bool)
      modifies this
      ensures ok <==> TokenAt(data, old(i)).Some? && TokenAt(data, old(i)).value.tokenType == expected
      ensures i == if ok then old(i) + 1 else old(i)
    {
      var t := Get();
      if t.None? || t.value.tokenType != expected {
        return false;
      }
      Skip();
      ok := true;
    }

    /** The current token. */
    method Get() returns (t: Option<Token>)
      ensures t.Some? <==> 0 <= i < |data|
      ensures t.Some? ==> t.value == data[i]
    {
      if 0 <= i < |data| {
        t := Some(data[i]);
      } else {
        t := None;
      }
    }

    /** Whether a token follows the current position. */
    method HasNext() returns (b: bool)
      ensures b <==> 0 <= i + 1 < |data|
    {
      var t := Peek();
      b := t.Some?;
    }
  }

  /** Peeking one ahead sees what the next step returns, and `hasNext` says
      beforehand whether that step finds a token. */
  method PeekThenNext(s: TokenStream) returns (more: bool, peeked: Option<Token>, next: Option<Token>)
    modifies s
    ensures peeked == next
    ensures more <==> next.Some?
    ensures s.i == old(s.i) + 1
  {
    more := s.HasNext();
    peeked := s.Peek();
    next := s.Next();
  }
}
