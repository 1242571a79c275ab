/**
 * The message parser of code/BOT/parse.nas as it runs: a read cursor, a write cursor into a fixed
 * buffer and a table of slices, updated byte by byte.  Proved to compute IrcMessage.Parse.
 */
module IrcParser {
  import opened Machine
  import opened IrcMessage

  /** `slices` put in front of what is still to come. */
  function Prepend(slices: seq<Slice>, r: Option<(Cur, seq<Slice>)>): Option<(Cur, seq<Slice>)> {
    if r.None? then None else Some((r.value.0, slices + r.value.1))
  }

  lemma PrependNothing(r: Option<(Cur, seq<Slice>)>)
    ensures Prepend([], r) == r
  {
    if r.Some? { assert [] + r.value.1 == r.value.1; }
  }

  /** What parseParams makes of the rest once one more parameter has been copied. */
  lemma ParamsTurn(c: Cur, n: nat, before: seq<Slice>)
    ensures n + 1 >= PARAMS_MAX || OneParam(c).None? ==> Params(c, n).None?
    ensures n + 1 < PARAMS_MAX && OneParam(c).Some? ==>
              var c1 := OneParam(c).value;
              var now := before + [Between(c.out, c1.out)];
              Prepend(before, Params(c, n)) ==
                if c1.rest == [] then None
                else if c1.rest[0] == CR then Some((c1, now))
                else Prepend(now, Params(c1, n + 1))
  {
    hide OneParam;
    if n + 1 < PARAMS_MAX && OneParam(c).Some? {
      var c1 := OneParam(c).value;
      if c1.rest != [] && c1.rest[0] != CR && Params(c1, n + 1).Some? {
        var more := Params(c1, n + 1).value.1;
        var slice := Between(c.out, c1.out);
        assert before + ([slice] + more) == before + [slice] + more;
      }
    }
  }

  /** Tags, prefix and command, and where they were stored. */
  ghost function Head(c: Cur): Option<(Cur, Slice, Slice, Slice)> {
    match WordIf(c, AT)
    case None => None
    case Some(c1) =>
      match WordIf(c1, COLON)
      case None => None
      case Some(c2) =>
        match CopyWord(c2)
        case None => None
        case Some(c3) => Some((c3, Between(c.out, c1.out), Between(c1.out, c2.out), Between(c2.out, c3.out)))
  }

  /** doParse, from its head and its parameters. */
  lemma ParseIs(input: seq<Byte>)
    ensures var head := Head(Cur(input, []));
            Parse(input) ==
              if head.None? then None
              else
                var r := Params(head.value.0, 0);
                if r.Some? && AtEnd(r.value.0.rest)
                then Some(Message(head.value.1, head.value.2, head.value.3, r.value.1, r.value.0.out))
                else None
  {
    hide WordIf, CopyWord, Params, Between;
  }

  lemma {:induction false} WordGrows(c: Cur)
    requires CopyWord(c).Some?
    ensures |CopyWord(c).value.out| >= |c.out|
    decreases |c.rest|
  {
    if !EndsWord(c.rest[0]) { WordGrows(Cur(c.rest[1..], c.out + [c.rest[0]])); }
  }

  lemma {:induction false} LineGrows(c: Cur)
    requires CopyToCR(c).Some?
    ensures |CopyToCR(c).value.out| >= |c.out|
    decreases |c.rest|
  {
    if c.rest[0] != CR { LineGrows(Cur(c.rest[1..], c.out + [c.rest[0]])); }
  }

  lemma {:induction false} SkipKeeps(c: Cur)
    requires SkipSpace(c).Some?
    ensures SkipSpace(c).value.out == c.out && SkipSpace(c).value.rest != []
    decreases |c.rest|
  {
    if c.rest[0] == SPACE { SkipKeeps(c.(rest := c.rest[1..])); }
  }

  lemma ParamGrows(c: Cur)
    requires OneParam(c).Some?
    ensures |OneParam(c).value.out| >= |c.out|
  {
    SkipKeeps(c);
    var c1 := SkipSpace(c).value;
    if StartsWith(c1.rest, COLON) { LineGrows(c1.(rest := c1.rest[1..])); } else { WordGrows(c1); }
  }

  lemma WordIfGrows(c: Cur, mark: Byte)
    requires WordIf(c, mark).Some?
    ensures |WordIf(c, mark).value.out| >= |c.out|
  {
    if c.rest[0] == mark {
      var c0 := c.(rest := c.rest[1..]);
      WordGrows(c0);
      SkipKeeps(CopyWord(c0).value);
    }
  }

  class Parser {
    const input: array<Byte>
    var si: nat
    var bx: nat
    const parseBuffer: array<Byte>
    var di: nat
    var cx: nat
    var tagsBuffer: nat
    var tagsBufferLen: int
    var prefixBuffer: nat
    var prefixBufferLen: int
    var cmdBuffer: nat
    var cmdBufferLen: int
    const paramsList: array<(nat, int)>
    var paramsListLen: nat

    ghost predicate Valid()
      reads this
    {
      && si + bx == input.Length && di + cx == BUFFER == parseBuffer.Length
      && paramsList.Length == PARAMS_MAX && input != parseBuffer
    }

    /** Input not yet read, and what has been stored. */
    ghost function Abs(): Cur
      reads this, input, parseBuffer
      requires Valid()
    {
      Cur(input[si..], parseBuffer[..di])
    }

    constructor (input: array<Byte>)
      ensures Valid() && Abs() == Cur(input[..], []) && this.input == input
      ensures fresh(parseBuffer) && fresh(paramsList)
    {
      this.input := input;
      si, bx := 0, input.Length;
      parseBuffer := new Byte[BUFFER];
      di, cx := 0, BUFFER;
      paramsList := new (nat, int)[PARAMS_MAX];
      paramsListLen := 0;
      tagsBuffer, tagsBufferLen, prefixBuffer, prefixBufferLen, cmdBuffer, cmdBufferLen := 0, 0, 0, 0, 0, 0;
      new;
      assert input[0..] == input[..];
    }

    /** `cf` is the carry flag: set on failure. */
    method Peek() returns (cf: bool, al: Byte)
      requires Valid()
      ensures cf <==> Abs().rest == []
      ensures !cf ==> al == Abs().rest[0]
    {
      if bx == 0 { return true, 0; }
      return false, input[si];
    }

    method Read() returns (cf: bool, al: Byte)
      requires Valid()
      modifies this`si, this`bx
      ensures Valid()
      ensures cf <==> old(Abs()).rest == []
      ensures !cf ==> al == old(Abs()).rest[0] && Abs() == old(Abs()).(rest := old(Abs()).rest[1..])
      ensures cf ==> Abs() == old(Abs())
    {
      if bx == 0 { return true, 0; }
      al := input[si];
      si := si + 1;
      bx := bx - 1;
      return false, al;
    }

    method Copy() returns (cf: bool)
      requires Valid()
      modifies this`si, this`bx, this`di, this`cx, parseBuffer
      ensures Valid()
      ensures cf <==> old(Abs()).rest == [] || |old(Abs()).out| >= BUFFER
      ensures !cf ==> Abs() == Cur(old(Abs()).rest[1..], old(Abs()).out + [old(Abs()).rest[0]])
    {
      if bx == 0 || cx == 0 { return true; }
      parseBuffer[di] := input[si];
      si, di := si + 1, di + 1;
      bx, cx := bx - 1, cx - 1;
      return false;
    }

    method CopyWord() returns (cf: bool)
      requires Valid()
      modifies this`si, this`bx, this`di, this`cx, parseBuffer
      ensures Valid()
      ensures var r := IrcMessage.CopyWord(old(Abs())); (cf <==> r.None?) && (!cf ==> Abs() == r.value)
    {
      while true
        invariant Valid() && IrcMessage.CopyWord(Abs()) == IrcMessage.CopyWord(old(Abs()))
        decreases bx
      {
        var al;
        cf, al := Peek();
        if cf || al == SPACE || al == CR { return; }
        cf := Copy();
        if cf { return; }
      }
    }

    method CopyToCR() returns (cf: bool)
      requires Valid()
      modifies this`si, this`bx, this`di, this`cx, parseBuffer
      ensures Valid()
      ensures var r := IrcMessage.CopyToCR(old(Abs())); (cf <==> r.None?) && (!cf ==> Abs() == r.value)
    {
      while true
        invariant Valid() && IrcMessage.CopyToCR(Abs()) == IrcMessage.CopyToCR(old(Abs()))
        decreases bx
      {
        var al;
        cf, al := Peek();
        if cf || al == CR { return; }
        cf := Copy();
        if cf { return; }
      }
    }

    method SkipSpace() returns (cf: bool)
      requires Valid()
      modifies this`si, this`bx
      ensures Valid()
      ensures var r := IrcMessage.SkipSpace(old(Abs())); (cf <==> r.None?) && (!cf ==> Abs() == r.value)
    {
      while true
        invariant Valid() && IrcMessage.SkipSpace(Abs()) == IrcMessage.SkipSpace(old(Abs()))
        decreases bx
      {
        var al;
        cf, al := Peek();
        if cf || al != SPACE { return; }
        cf, al := Read();
        if cf { return; }
      }
    }

    method ParseWordIf(ah: Byte) returns (cf: bool)
      requires Valid()
      modifies this`si, this`bx, this`di, this`cx, parseBuffer
      ensures Valid()
      ensures var r := WordIf(old(Abs()), ah); (cf <==> r.None?) && (!cf ==> Abs() == r.value)
    {
      var al;
      cf, al := Peek();
      if cf || al != ah { return; }
      cf, al := Read();
      if cf { return; }
      cf := CopyWord();
      if cf { return; }
      cf := SkipSpace();
    }

    method ParseTags() returns (cf: bool)
      requires Valid()
      modifies this`si, this`bx, this`di, this`cx, this`tagsBuffer, this`tagsBufferLen, parseBuffer
      ensures Valid()
      ensures var r := WordIf(old(Abs()), AT);
              && (cf <==> r.None?)
              && (!cf ==> Abs() == r.value && Entry(tagsBuffer, tagsBufferLen) == Between(old(Abs()).out, r.value.out))
    {
      ghost var c := Abs();
      tagsBuffer, tagsBufferLen := di, cx;
      cf := ParseWordIf(AT);
      if cf { return; }
      tagsBufferLen := tagsBufferLen - cx;
      WordIfGrows(c, AT);
    }

    method ParsePrefix() returns (cf: bool)
      requires Valid()
      modifies this`si, this`bx, this`di, this`cx, this`prefixBuffer, this`prefixBufferLen, parseBuffer
      ensures Valid()
      ensures var r := WordIf(old(Abs()), COLON);
              && (cf <==> r.None?)
              && (!cf ==> Abs() == r.value && Entry(prefixBuffer, prefixBufferLen) == Between(old(Abs()).out, r.value.out))
    {
      ghost var c := Abs();
      prefixBuffer, prefixBufferLen := di, cx;
      cf := ParseWordIf(COLON);
      if cf { return; }
      prefixBufferLen := prefixBufferLen - cx;
      WordIfGrows(c, COLON);
    }

    method ParseCmd() returns (cf: bool)
      requires Valid()
      modifies this`si, this`bx, this`di, this`cx, this`cmdBuffer, this`cmdBufferLen, parseBuffer
      ensures Valid()
      ensures var r := IrcMessage.CopyWord(old(Abs()));
              && (cf <==> r.None?)
              && (!cf ==> Abs() == r.value && Entry(cmdBuffer, cmdBufferLen) == Between(old(Abs()).out, r.value.out))
    {
      ghost var c := Abs();
      cmdBuffer, cmdBufferLen := di, cx;
      cf := CopyWord();
      if cf { return; }
      cmdBufferLen := cmdBufferLen - cx;
      WordGrows(c);
    }

    /** One turn of parseParams: skip spaces, then copy to the end of the word or of the line. */
    method ParseOneParam() returns (cf: bool)
      requires Valid()
      modifies this`si, this`bx, this`di, this`cx, parseBuffer
      ensures Valid()
      ensures var r := OneParam(old(Abs())); (cf <==> r.None?) && (!cf ==> Abs() == r.value)
    {
      hide IrcMessage.SkipSpace, IrcMessage.CopyWord, IrcMessage.CopyToCR;
      ghost var c := Abs();
      var al;
      cf := SkipSpace();
      if cf { return; }
      SkipKeeps(c);
      cf, al := Peek();
      if cf { return; }
      if al == COLON {
        cf, al := Read();
        if cf { return; }
        cf := CopyToCR();
      } else {
        cf := CopyWord();
      }
    }

    /** The slices recorded so far. */
    ghost function Listed(n: nat): seq<Slice>
      reads paramsList
      requires n <= paramsList.Length
    {
      Entries(paramsList[..n])
    }

    method ParseParams() returns (cf: bool)
      requires Valid() && paramsListLen == 0
      modifies this`si, this`bx, this`di, this`cx, this`paramsListLen, parseBuffer, paramsList
      ensures Valid()
      ensures var r := Params(old(Abs()), 0);
              && (cf <==> r.None?)
              && (!cf ==> paramsListLen <= PARAMS_MAX && (Abs(), Listed(paramsListLen)) == r.value)
    {
      hide OneParam, Params;
      ghost var goal := Params(Abs(), 0);
      assert Listed(0) == [];
      PrependNothing(goal);
      var bp := 0;
      while true
        invariant Valid() && bp == paramsListLen < PARAMS_MAX
        invariant Prepend(Listed(bp), Params(Abs(), bp)) == goal
        decreases PARAMS_MAX - bp
      {
        ghost var c := Abs();
        ghost var before := Listed(bp);
        ParamsTurn(c, bp, before);
        paramsListLen := paramsListLen + 1;
        if paramsListLen >= PARAMS_MAX { return true; }
        paramsList[bp] := (di, cx);
        assert Abs() == c && Listed(bp) == before;
        cf := ParseOneParam();
        if cf { return; }
        ParamGrows(c);
        paramsList[bp] := (paramsList[bp].0, paramsList[bp].1 - cx);
        bp := bp + 1;
        assert Listed(bp) == before + [Between(c.out, Abs().out)];
        var al;
        cf, al := Peek();
        if cf { return; }
        if al == CR { return; }
      }
    }

    method ParseCRLF() returns (cf: bool)
      requires Valid()
      modifies this`si, this`bx
      ensures Valid()
      ensures !cf && bx == 0 <==> AtEnd(old(Abs()).rest)
      ensures Abs().out == old(Abs()).out
    {
      ghost var rest := Abs().rest;
      assert AtEnd(rest) <==> |rest| == 2 && rest[0] == CR && rest[1] == LF;
      var al;
      cf, al := Read();
      if cf { return; }
      if al != CR { return true; }
      cf, al := Read();
      if cf { return; }
      if al != LF { return true; }
    }

    /** The table of slices as a message. */
    ghost function Result(): Message
      reads this, parseBuffer, paramsList
      requires Valid() && paramsListLen <= PARAMS_MAX
    {
      Message(Entry(tagsBuffer, tagsBufferLen), Entry(prefixBuffer, prefixBufferLen), Entry(cmdBuffer, cmdBufferLen),
              Listed(paramsListLen), parseBuffer[..di])
    }

    /** doParse on a parser set up for a line. */
    method DoParse() returns (cf: bool)
      requires Valid() && Abs() == Cur(input[..], [])
      modifies this, parseBuffer, paramsList
      ensures Valid() && input[..] == old(input[..])
      ensures cf <==> Parse(input[..]).None?
      ensures !cf ==> paramsListLen <= PARAMS_MAX && Result() == Parse(input[..]).value
    {
      hide WordIf, IrcMessage.CopyWord, Params, Between, Entry, Listed, Entries, Parse, Head, AtEnd;
      ghost var c := Abs();
      ParseIs(c.rest);
      cf := ParseHead();
      if cf { return; }
      paramsListLen := 0;
      cf := ParseParams();
      if cf { return; }
      cf := ParseEnd();
    }

    /** The line end, with no input after it; nothing recorded changes. */
    method ParseEnd() returns (cf: bool)
      requires Valid() && paramsListLen <= PARAMS_MAX
      modifies this`si, this`bx
      ensures Valid() && Result() == old(Result())
      ensures cf <==> !AtEnd(old(Abs()).rest)
    {
      hide Entry, Listed, Entries;
      cf := ParseCRLF();
      if !cf && bx != 0 { cf := true; }
    }

    /** Tags, prefix and command. */
    method ParseHead() returns (cf: bool)
      requires Valid()
      modifies this`si, this`bx, this`di, this`cx, this`tagsBuffer, this`tagsBufferLen
      modifies this`prefixBuffer, this`prefixBufferLen, this`cmdBuffer, this`cmdBufferLen, parseBuffer
      ensures Valid()
      ensures var r := Head(old(Abs()));
              && (cf <==> r.None?)
              && (!cf ==> (Abs(), Entry(tagsBuffer, tagsBufferLen), Entry(prefixBuffer, prefixBufferLen),
                           Entry(cmdBuffer, cmdBufferLen)) == r.value)
    {
      hide WordIf, IrcMessage.CopyWord, Between, Entry;
      cf := ParseTags();
      if cf { return; }
      cf := ParsePrefix();
      if cf { return; }
      cf := ParseCmd();
    }

    /** paramAt: the slice of parameter `ax`, or None for the null pointer. */
    method ParamAt(ax: nat) returns (s: Option<Slice>)
      requires Valid() && paramsListLen <= PARAMS_MAX
      ensures s == if ax < paramsListLen then Some(Listed(paramsListLen)[ax]) else None
    {
      if paramsListLen <= ax { return None; }
      var entry, left := 0, ax;
      while left != 0
        invariant entry + left == ax
      {
        left := left - 1;
        entry := entry + 1;
      }
      return Some(Entry(paramsList[entry].0, paramsList[entry].1));
    }
  }

  function Entries(es: seq<(nat, int)>): (s: seq<Slice>)
    ensures |s| == |es|
  {
    seq(|es|, i requires 0 <= i < |es| => Entry(es[i].0, es[i].1))
  }

  /** A slice from a table entry, whose length is a difference of two write counts. */
  function Entry(at: nat, len: int): Slice { Slice(at, if len >= 0 then len else 0) }
}
