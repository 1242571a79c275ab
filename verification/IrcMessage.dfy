/**
 * The IRC message parser of code/BOT/parse.nas over values, and the grammar it accepts
 * (RFC 1459, section 2.3.1, with message tags).
 */
module IrcMessage {
  import opened Machine

  const CR: Byte := 0x0D
  const LF: Byte := 0x0A
  const SPACE: Byte := 0x20
  const COLON: Byte := 0x3A
  const AT: Byte := 0x40

  /** Bytes the parser can store (the size of parseBuffer). */
  const BUFFER: nat := 512
  /** Entries of paramsList; one of them is never used. */
  const PARAMS_MAX: nat := 4

  /** Input still to be read and bytes stored so far. */
  datatype Cur = Cur(rest: seq<Byte>, out: seq<Byte>)

  /** A piece of parseBuffer. */
  datatype Slice = Slice(at: nat, len: nat)

  datatype Message = Message(tags: Slice, prefix: Slice, cmd: Slice, params: seq<Slice>, out: seq<Byte>)

  // ---------------------------------------------------------------- the parser

  predicate StartsWith(s: seq<Byte>, b: Byte) { s != [] && s[0] == b }

  predicate EndsWord(b: Byte) { b == SPACE || b == CR }

  /** copyWord */
  function CopyWord(c: Cur): Option<Cur>
    decreases |c.rest|
  {
    if c.rest == [] then None
    else if EndsWord(c.rest[0]) then Some(c)
    else if |c.out| >= BUFFER then None
    else CopyWord(Cur(c.rest[1..], c.out + [c.rest[0]]))
  }

  /** copyToCR */
  function CopyToCR(c: Cur): Option<Cur>
    decreases |c.rest|
  {
    if c.rest == [] then None
    else if c.rest[0] == CR then Some(c)
    else if |c.out| >= BUFFER then None
    else CopyToCR(Cur(c.rest[1..], c.out + [c.rest[0]]))
  }

  /** skipSpace */
  function SkipSpace(c: Cur): Option<Cur>
    decreases |c.rest|
  {
    if c.rest == [] then None
    else if c.rest[0] != SPACE then Some(c)
    else SkipSpace(c.(rest := c.rest[1..]))
  }

  /** parseWordIf: an optional word introduced by `mark`. */
  function WordIf(c: Cur, mark: Byte): Option<Cur> {
    if c.rest == [] then None
    else if c.rest[0] != mark then Some(c)
    else
      match CopyWord(c.(rest := c.rest[1..]))
      case None => None
      case Some(c1) => SkipSpace(c1)
  }

  /** One turn of parseParams after the count has been checked. */
  function OneParam(c: Cur): Option<Cur> {
    match SkipSpace(c)
    case None => None
    case Some(c1) => if StartsWith(c1.rest, COLON) then CopyToCR(c1.(rest := c1.rest[1..])) else CopyWord(c1)
  }

  /** parseParams, with `n` parameters seen so far. */
  function Params(c: Cur, n: nat): Option<(Cur, seq<Slice>)>
    decreases PARAMS_MAX - n
  {
    if n + 1 >= PARAMS_MAX then None
    else
      match OneParam(c)
      case None => None
      case Some(c1) =>
        var slice := Slice(|c.out|, if |c1.out| >= |c.out| then |c1.out| - |c.out| else 0);
        if c1.rest == [] then None
        else if c1.rest[0] == CR then Some((c1, [slice]))
        else
          match Params(c1, n + 1)
          case None => None
          case Some(r) => Some((r.0, [slice] + r.1))
  }

  /** parseCRLF, after which doParse wants no input left. */
  predicate AtEnd(rest: seq<Byte>) { rest == [CR, LF] }

  function Between(a: seq<Byte>, b: seq<Byte>): Slice { Slice(|a|, if |b| >= |a| then |b| - |a| else 0) }

  /** doParse */
  function Parse(input: seq<Byte>): Option<Message> {
    match WordIf(Cur(input, []), AT)
    case None => None
    case Some(c1) =>
      match WordIf(c1, COLON)
      case None => None
      case Some(c2) =>
        match CopyWord(c2)
        case None => None
        case Some(c3) =>
          match Params(c3, 0)
          case None => None
          case Some(r) =>
            if AtEnd(r.0.rest) then
              Some(Message(Between([], c1.out), Between(c1.out, c2.out), Between(c2.out, c3.out), r.1, r.0.out))
            else None
  }

  // ---------------------------------------------------------------- the grammar

  /** A word introduced by a mark, and the spaces after it. */
  datatype Lead = Lead(text: seq<Byte>, gap: nat)

  /** The spaces before a parameter, whether it is introduced by a colon, and its text. */
  datatype Param = Param(gap: nat, long: bool, text: seq<Byte>)

  datatype Shape = Shape(tags: Option<Lead>, prefix: Option<Lead>, cmd: seq<Byte>, params: seq<Param>)

  function Spaces(n: nat): (s: seq<Byte>)
    ensures |s| == n && forall i :: 0 <= i < n ==> s[i] == SPACE
  {
    if n == 0 then [] else [SPACE] + Spaces(n - 1)
  }

  function PrintParam(p: Param): seq<Byte> { Spaces(p.gap) + (if p.long then [COLON] else []) + p.text }

  function PrintParams(ps: seq<Param>): (r: seq<Byte>)
    ensures |r| >= 2
  {
    if ps == [] then [CR, LF] else PrintParam(ps[0]) + PrintParams(ps[1..])
  }

  function PrintLead(mark: Byte, l: Option<Lead>, next: seq<Byte>): seq<Byte> {
    if l.None? then next else [mark] + l.value.text + Spaces(l.value.gap) + next
  }

  function PrintCmd(s: Shape): seq<Byte> { s.cmd + PrintParams(s.params) }
  function PrintPrefix(s: Shape): seq<Byte> { PrintLead(COLON, s.prefix, PrintCmd(s)) }
  function Print(s: Shape): seq<Byte> { PrintLead(AT, s.tags, PrintPrefix(s)) }

  predicate IsWord(w: seq<Byte>) { forall i :: 0 <= i < |w| ==> !EndsWord(w[i]) }
  predicate NoCR(w: seq<Byte>) { forall i :: 0 <= i < |w| ==> w[i] != CR }

  /** What may follow a word. */
  predicate AfterWord(next: seq<Byte>) { next != [] && EndsWord(next[0]) }

  predicate LeadOk(mark: Byte, l: Option<Lead>, next: seq<Byte>) {
    next != [] &&
    match l
    case None => next[0] != mark
    case Some(w) => IsWord(w.text) && next[0] != SPACE && (w.gap == 0 ==> next[0] == CR)
  }

  predicate ParamOk(p: Param, next: seq<Byte>) {
    if p.long then NoCR(p.text) && StartsWith(next, CR)
    else IsWord(p.text) && !StartsWith(p.text, COLON) && AfterWord(next) && (p.text == [] ==> next[0] == CR)
  }

  /** At most `most` parameters, at least one. */
  predicate ParamsOk(ps: seq<Param>, most: int)
    decreases |ps|
  {
    && ps != [] && most > 0 && ParamOk(ps[0], PrintParams(ps[1..]))
    && (|ps| > 1 ==> ps[1].gap > 0 && ParamsOk(ps[1..], most - 1))
  }

  predicate WellFormed(s: Shape) {
    && LeadOk(AT, s.tags, PrintPrefix(s)) && LeadOk(COLON, s.prefix, PrintCmd(s))
    && IsWord(s.cmd) && AfterWord(PrintParams(s.params)) && ParamsOk(s.params, PARAMS_MAX - 1)
  }

  function Text(l: Option<Lead>): seq<Byte> { if l.None? then [] else l.value.text }

  function Texts(ps: seq<Param>): seq<Byte> { if ps == [] then [] else ps[0].text + Texts(ps[1..]) }

  /** Everything the parser stores. */
  function Stored(s: Shape): seq<Byte> { Text(s.tags) + Text(s.prefix) + s.cmd + Texts(s.params) }

  function Slices(ps: seq<Param>, at: nat): seq<Slice> {
    if ps == [] then [] else [Slice(at, |ps[0].text|)] + Slices(ps[1..], at + |ps[0].text|)
  }

  /** The slice table for a message of this shape: the fields one after the other. */
  function Meaning(s: Shape): Message {
    var t, p := |Text(s.tags)|, |Text(s.prefix)|;
    Message(Slice(0, t), Slice(t, p), Slice(t + p, |s.cmd|), Slices(s.params, t + p + |s.cmd|), Stored(s))
  }

  // ---------------------------------------------------------------- the primitives

  lemma {:induction false} CopyWordMakes(c: Cur, w: seq<Byte>, next: seq<Byte>)
    requires c.rest == w + next && IsWord(w) && AfterWord(next) && |c.out| + |w| <= BUFFER
    ensures CopyWord(c) == Some(Cur(next, c.out + w))
    decreases |w|
  {
    if w == [] {
      assert c.rest == next && c.out + w == c.out;
    } else {
      var c1 := Cur(c.rest[1..], c.out + [c.rest[0]]);
      assert c1.rest == w[1..] + next && c1.out + w[1..] == c.out + w;
      CopyWordMakes(c1, w[1..], next);
    }
  }

  lemma {:induction false} CopyWordTakes(c: Cur) returns (w: seq<Byte>)
    requires CopyWord(c).Some?
    ensures var c' := CopyWord(c).value;
            && c.rest == w + c'.rest && IsWord(w) && AfterWord(c'.rest) && c'.out == c.out + w
            && (w == [] || |c'.out| <= BUFFER)
    decreases |c.rest|
  {
    if EndsWord(c.rest[0]) {
      w := [];
    } else {
      var v := CopyWordTakes(Cur(c.rest[1..], c.out + [c.rest[0]]));
      w := [c.rest[0]] + v;
    }
  }

  lemma {:induction false} CopyToCRMakes(c: Cur, w: seq<Byte>, next: seq<Byte>)
    requires c.rest == w + next && NoCR(w) && StartsWith(next, CR) && |c.out| + |w| <= BUFFER
    ensures CopyToCR(c) == Some(Cur(next, c.out + w))
    decreases |w|
  {
    if w == [] {
      assert c.rest == next && c.out + w == c.out;
    } else {
      var c1 := Cur(c.rest[1..], c.out + [c.rest[0]]);
      assert c1.rest == w[1..] + next && c1.out + w[1..] == c.out + w;
      CopyToCRMakes(c1, w[1..], next);
    }
  }

  lemma {:induction false} CopyToCRTakes(c: Cur) returns (w: seq<Byte>)
    requires CopyToCR(c).Some?
    ensures var c' := CopyToCR(c).value;
            && c.rest == w + c'.rest && NoCR(w) && StartsWith(c'.rest, CR) && c'.out == c.out + w
            && (w == [] || |c'.out| <= BUFFER)
    decreases |c.rest|
  {
    if c.rest[0] == CR {
      w := [];
    } else {
      var v := CopyToCRTakes(Cur(c.rest[1..], c.out + [c.rest[0]]));
      w := [c.rest[0]] + v;
    }
  }

  lemma {:induction false} SkipSpaceMakes(c: Cur, n: nat, next: seq<Byte>)
    requires c.rest == Spaces(n) + next && next != [] && next[0] != SPACE
    ensures SkipSpace(c) == Some(c.(rest := next))
    decreases n
  {
    if n == 0 {
      assert c.rest == next;
    } else {
      assert c.rest[1..] == Spaces(n - 1) + next;
      SkipSpaceMakes(c.(rest := c.rest[1..]), n - 1, next);
    }
  }

  lemma {:induction false} SkipSpaceTakes(c: Cur) returns (n: nat)
    requires SkipSpace(c).Some?
    ensures var c' := SkipSpace(c).value;
            c.rest == Spaces(n) + c'.rest && c'.rest != [] && c'.rest[0] != SPACE && c'.out == c.out
    decreases |c.rest|
  {
    if c.rest[0] != SPACE {
      n := 0;
    } else {
      var m := SkipSpaceTakes(c.(rest := c.rest[1..]));
      n := m + 1;
      assert c.rest == [SPACE] + c.rest[1..];
    }
  }

  // ---------------------------------------------------------------- printing, then parsing

  lemma WordIfMakes(c: Cur, mark: Byte, l: Option<Lead>, next: seq<Byte>)
    requires c.rest == PrintLead(mark, l, next) && LeadOk(mark, l, next) && |c.out| + |Text(l)| <= BUFFER
    ensures WordIf(c, mark) == Some(Cur(next, c.out + Text(l)))
  {
    match l
    case None => assert c.out + [] == c.out;
    case Some(w) =>
      var c1 := c.(rest := c.rest[1..]);
      assert c1.rest == w.text + (Spaces(w.gap) + next);
      CopyWordMakes(c1, w.text, Spaces(w.gap) + next);
      SkipSpaceMakes(Cur(Spaces(w.gap) + next, c.out + w.text), w.gap, next);
  }

  lemma PrintedParam(p: Param, next: seq<Byte>)
    ensures PrintParam(p) + next == Spaces(p.gap) + (if p.long then [COLON] + p.text + next else p.text + next)
  {
    hide Spaces;
    if p.long {
      assert Spaces(p.gap) + [COLON] + p.text + next == Spaces(p.gap) + ([COLON] + p.text + next);
    } else {
      assert Spaces(p.gap) + [] + p.text + next == Spaces(p.gap) + (p.text + next);
    }
  }

  lemma OneParamMakes(c: Cur, p: Param, next: seq<Byte>)
    requires c.rest == PrintParam(p) + next && ParamOk(p, next) && |c.out| + |p.text| <= BUFFER
    ensures OneParam(c) == Some(Cur(next, c.out + p.text))
  {
    hide SkipSpace, CopyToCR, CopyWord, Spaces;
    PrintedParam(p, next);
    if p.long {
      var body := [COLON] + p.text + next;
      SkipSpaceMakes(c, p.gap, body);
      assert body[1..] == p.text + next;
      CopyToCRMakes(Cur(p.text + next, c.out), p.text, next);
    } else {
      var body := p.text + next;
      assert body[0] == if p.text == [] then next[0] else p.text[0];
      SkipSpaceMakes(c, p.gap, body);
      CopyWordMakes(Cur(body, c.out), p.text, next);
    }
  }

  lemma {:induction false} ParamsMakes(c: Cur, ps: seq<Param>, n: nat)
    requires c.rest == PrintParams(ps) && ParamsOk(ps, PARAMS_MAX - 1 - n) && |c.out| + |Texts(ps)| <= BUFFER
    ensures Params(c, n) == Some((Cur([CR, LF], c.out + Texts(ps)), Slices(ps, |c.out|)))
    decreases |ps|
  {
    var p, more := ps[0], ps[1..];
    var next := PrintParams(more);
    var c1 := Cur(next, c.out + p.text);
    OneParamMakes(c, p, next);
    if more == [] {
      assert Texts(more) == [] && Slices(more, |c1.out|) == [];
      assert Texts(ps) == p.text && Slices(ps, |c.out|) == [Slice(|c.out|, |p.text|)];
      assert c1 == Cur([CR, LF], c.out + Texts(ps));
    } else {
      PrintedGap(more);
      assert !p.long;
      ParamsMakes(c1, more, n + 1);
      assert c1.out + Texts(more) == c.out + Texts(ps);
    }
  }

  lemma PrintedGap(ps: seq<Param>)
    requires ps != [] && ps[0].gap > 0
    ensures StartsWith(PrintParams(ps), SPACE)
  {
  }

  /** Any message of the grammar that fits the buffer is parsed, and every field comes back in its slice. */
  lemma ParsePrinted(s: Shape)
    requires WellFormed(s) && |Stored(s)| <= BUFFER
    ensures Parse(Print(s)) == Some(Meaning(s))
  {
    hide WordIf, CopyWord, Params, Slices, Texts;
    var t, p := Text(s.tags), Text(s.prefix);
    WordIfMakes(Cur(Print(s), []), AT, s.tags, PrintPrefix(s));
    assert [] + t == t;
    WordIfMakes(Cur(PrintPrefix(s), t), COLON, s.prefix, PrintCmd(s));
    CopyWordMakes(Cur(PrintCmd(s), t + p), s.cmd, PrintParams(s.params));
    ParamsMakes(Cur(PrintParams(s.params), t + p + s.cmd), s.params, 0);
  }

  // ---------------------------------------------------------------- parsing, then printing

  lemma Regroup(a: seq<Byte>, b: seq<Byte>, c: seq<Byte>, d: seq<Byte>)
    ensures a + (b + (c + d)) == a + b + c + d
  {
  }

  lemma WordIfTakes(c: Cur, mark: Byte) returns (l: Option<Lead>)
    requires WordIf(c, mark).Some? && |c.out| <= BUFFER
    ensures var c' := WordIf(c, mark).value;
            && c.rest == PrintLead(mark, l, c'.rest) && LeadOk(mark, l, c'.rest)
            && c'.out == c.out + Text(l) && |c'.out| <= BUFFER
  {
    hide SkipSpace, CopyWord, Spaces, IsWord;
    if c.rest[0] != mark {
      l := None;
      assert c.out + [] == c.out;
    } else {
      var c0 := c.(rest := c.rest[1..]);
      var w := CopyWordTakes(c0);
      var c1 := CopyWord(c0).value;
      var n := SkipSpaceTakes(c1);
      l := Some(Lead(w, n));
      var next := SkipSpace(c1).value.rest;
      assert c.rest == [mark] + c0.rest;
      Regroup([mark], w, Spaces(n), next);
    }
  }

  lemma OneParamTakes(c: Cur) returns (p: Param)
    requires OneParam(c).Some? && |c.out| <= BUFFER
    ensures var c' := OneParam(c).value;
            && c.rest == PrintParam(p) + c'.rest && c'.out == c.out + p.text && |c'.out| <= BUFFER
            && ParamOk(p, c'.rest)
  {
    hide SkipSpace, CopyToCR, CopyWord, Spaces, PrintParam;
    var n := SkipSpaceTakes(c);
    var c1 := SkipSpace(c).value;
    if c1.rest[0] == COLON {
      var w := CopyToCRTakes(c1.(rest := c1.rest[1..]));
      p := Param(n, true, w);
      var next := CopyToCR(c1.(rest := c1.rest[1..])).value.rest;
      assert c1.rest == [COLON] + w + next;
      PrintedParam(p, next);
    } else {
      var w := CopyWordTakes(c1);
      p := Param(n, false, w);
      PrintedParam(p, CopyWord(c1).value.rest);
    }
  }

  lemma {:induction false} ParamsTakes(c: Cur, n: nat) returns (ps: seq<Param>)
    requires Params(c, n).Some? && |c.out| <= BUFFER && AtEnd(Params(c, n).value.0.rest)
    ensures var (c', slices) := Params(c, n).value;
            && c.rest == PrintParams(ps) && ParamsOk(ps, PARAMS_MAX - 1 - n)
            && c'.out == c.out + Texts(ps) && |c'.out| <= BUFFER && slices == Slices(ps, |c.out|)
    decreases PARAMS_MAX - n
  {
    var p := OneParamTakes(c);
    var c1 := OneParam(c).value;
    if c1.rest[0] == CR {
      ps := [p];
      assert ps[1..] == [] && Slices([], |c.out| + |p.text|) == [];
      assert PrintParams([]) == [CR, LF] && Texts(ps) == p.text + [];
    } else {
      var more := ParamsTakes(c1, n + 1);
      ps := [p] + more;
      assert ps[1..] == more;
      FirstGap(more, c1.rest);
      assert c1.out + Texts(more) == c.out + Texts(ps);
    }
  }

  /** What follows a word that did not end the line starts with a space. */
  lemma FirstGap(ps: seq<Param>, rest: seq<Byte>)
    requires rest == PrintParams(ps) && ps != [] && ParamOk(ps[0], PrintParams(ps[1..])) && rest[0] == SPACE
    ensures ps[0].gap > 0
  {
  }

  /** Whatever is parsed was printed from a well-formed message, of which the result holds every field. */
  lemma ParsedWasPrinted(input: seq<Byte>) returns (s: Shape)
    requires Parse(input).Some?
    ensures WellFormed(s) && |Stored(s)| <= BUFFER && Print(s) == input && Parse(input).value == Meaning(s)
  {
    hide WordIf, CopyWord, Params, Slices, Texts, WellFormed, LeadOk, ParamsOk, PrintLead;
    var c0 := Cur(input, []);
    var tags := WordIfTakes(c0, AT);
    var c1 := WordIf(c0, AT).value;
    var prefix := WordIfTakes(c1, COLON);
    var c2 := WordIf(c1, COLON).value;
    var cmd := CopyWordTakes(c2);
    var c3 := CopyWord(c2).value;
    var params := ParamsTakes(c3, 0);
    s := Shape(tags, prefix, cmd, params);
    PartsWellFormed(s, c1.rest, c2.rest, c3.rest);
    assert [] + Text(tags) == Text(tags);
  }

  lemma PartsWellFormed(s: Shape, afterTags: seq<Byte>, afterPrefix: seq<Byte>, afterCmd: seq<Byte>)
    requires afterCmd == PrintParams(s.params) && afterPrefix == s.cmd + afterCmd
    requires afterTags == PrintLead(COLON, s.prefix, afterPrefix)
    requires LeadOk(AT, s.tags, afterTags) && LeadOk(COLON, s.prefix, afterPrefix)
    requires IsWord(s.cmd) && AfterWord(afterCmd) && ParamsOk(s.params, PARAMS_MAX - 1)
    ensures WellFormed(s) && Print(s) == PrintLead(AT, s.tags, afterTags)
  {
  }

  lemma AtMostThree(s: Shape)
    requires WellFormed(s)
    ensures |s.params| <= 3
  {
    ParamsCount(s.params, PARAMS_MAX - 1);
  }

  lemma {:induction false} ParamsCount(ps: seq<Param>, most: int)
    requires ParamsOk(ps, most)
    ensures |ps| <= most
    decreases |ps|
  {
    if |ps| > 1 { ParamsCount(ps[1..], most - 1); }
  }

  /** "@t :n C a :b c" and CR LF. */
  lemma ParseExample()
    ensures Parse([0x40, 0x74, 0x20, 0x3A, 0x6E, 0x20, 0x43, 0x20, 0x61, 0x20, 0x3A, 0x62, 0x20, 0x63, 0x0D, 0x0A])
              == Some(Message(Slice(0, 1), Slice(1, 1), Slice(2, 1), [Slice(3, 1), Slice(4, 3)],
                              [0x74, 0x6E, 0x43, 0x61, 0x62, 0x20, 0x63]))
  {
    hide PrintParams, Print, Parse, WellFormed, Stored, Slices;
    var b := Param(1, true, [0x62, 0x20, 0x63]);
    var ps := [Param(1, false, [0x61]), b];
    var s := Shape(Some(Lead([0x74], 1)), Some(Lead([0x6E], 1)), [0x43], ps);
    ExamplePrints(ps, b);
    ExampleMeans(s, ps, b);
    ParsePrinted(s);
  }

  lemma ExamplePrints(ps: seq<Param>, b: Param)
    requires ps == [Param(1, false, [0x61]), b] && b == Param(1, true, [0x62, 0x20, 0x63])
    ensures PrintParams([b]) == [0x20, 0x3A, 0x62, 0x20, 0x63, 0x0D, 0x0A]
    ensures PrintParams(ps) == [0x20, 0x61, 0x20, 0x3A, 0x62, 0x20, 0x63, 0x0D, 0x0A]
  {
    assert ps[1..] == [b] && [b][1..] == [] && PrintParams([]) == [CR, LF];
    assert Spaces(0) == [] && Spaces(1) == [SPACE];
    assert PrintParam(b) == [0x20, 0x3A, 0x62, 0x20, 0x63];
    assert PrintParam(ps[0]) == [0x20, 0x61];
  }

  lemma ExampleMeans(s: Shape, ps: seq<Param>, b: Param)
    requires ps == [Param(1, false, [0x61]), b] && b == Param(1, true, [0x62, 0x20, 0x63])
    requires s == Shape(Some(Lead([0x74], 1)), Some(Lead([0x6E], 1)), [0x43], ps)
    requires PrintParams(ps) == [0x20, 0x61, 0x20, 0x3A, 0x62, 0x20, 0x63, 0x0D, 0x0A]
    requires PrintParams([b]) == [0x20, 0x3A, 0x62, 0x20, 0x63, 0x0D, 0x0A]
    ensures WellFormed(s)
    ensures Print(s) == [0x40, 0x74, 0x20, 0x3A, 0x6E, 0x20, 0x43, 0x20, 0x61, 0x20, 0x3A, 0x62, 0x20, 0x63, 0x0D, 0x0A]
    ensures Stored(s) == [0x74, 0x6E, 0x43, 0x61, 0x62, 0x20, 0x63]
    ensures Slices(ps, 3) == [Slice(3, 1), Slice(4, 3)]
  {
    assert ps[1..] == [b] && [b][1..] == [] && PrintParams([]) == [CR, LF];
    assert Spaces(0) == [] && Spaces(1) == [SPACE];
    assert Texts([]) == [] && Texts([b]) == b.text && Texts(ps) == [0x61] + b.text;
    assert Slices([], 7) == [] && Slices([b], 4) == [Slice(4, 3)];
    assert ParamsOk([b], 2);
  }

  /**
   * The parser accepts exactly the printed forms of well-formed messages that fit its buffer, and
   * its result is the message: fields equal, slices laid out one after the other in parseBuffer.
   */
  lemma ParseExactly(input: seq<Byte>, m: Message)
    ensures Parse(input) == Some(m) <==>
              exists s :: WellFormed(s) && |s.params| <= 3 && |Stored(s)| <= 512 && Print(s) == input && Meaning(s) == m
  {
    hide WellFormed, Print, Stored, Meaning, Parse;
    if Parse(input) == Some(m) {
      var s := ParsedWasPrinted(input);
      AtMostThree(s);
    }
    forall s | WellFormed(s) && |Stored(s)| <= BUFFER && Print(s) == input && Meaning(s) == m
      ensures Parse(input) == Some(m)
    {
      ParsePrinted(s);
    }
  }

  // ---------------------------------------------------------------- slices

  function At(out: seq<Byte>, s: Slice): seq<Byte>
    requires s.at + s.len <= |out|
  {
    out[s.at..s.at + s.len]
  }

  /** The slices lie one after the other, from `at` up to the end of what was stored. */
  ghost predicate Tiled(slices: seq<Slice>, at: nat, end: nat) {
    if slices == [] then at == end else slices[0].at == at && Tiled(slices[1..], at + slices[0].len, end)
  }

  lemma {:induction false} SlicesTile(ps: seq<Param>, at: nat)
    ensures Tiled(Slices(ps, at), at, at + |Texts(ps)|) && |Slices(ps, at)| == |ps|
  {
    if ps != [] { SlicesTile(ps[1..], at + |ps[0].text|); }
  }

  lemma {:induction false} SlicesHold(ps: seq<Param>, before: seq<Byte>, k: nat)
    requires k < |ps|
    ensures var s := Slices(ps, |before|);
            && |s| == |ps| && s[k].at + s[k].len <= |before + Texts(ps)|
            && At(before + Texts(ps), s[k]) == ps[k].text
  {
    SlicesTile(ps, |before|);
    var out := before + Texts(ps);
    if k == 0 {
      assert out == before + ps[0].text + Texts(ps[1..]);
    } else {
      assert out == (before + ps[0].text) + Texts(ps[1..]);
      SlicesHold(ps[1..], before + ps[0].text, k - 1);
    }
  }

  /** On every success the slices of tags, prefix, command and parameters tile what was stored, in order. */
  lemma SlicesTileBuffer(input: seq<Byte>)
    requires Parse(input).Some?
    ensures var m := Parse(input).value;
            && Tiled([m.tags, m.prefix, m.cmd] + m.params, 0, |m.out|) && |m.out| <= BUFFER
            && 1 <= |m.params| < PARAMS_MAX
  {
    var s := ParsedWasPrinted(input);
    var at := |Text(s.tags)| + |Text(s.prefix)| + |s.cmd|;
    SlicesTile(s.params, at);
    ParamCount(s.params, PARAMS_MAX - 1);
    var m := Meaning(s);
    var all := [m.tags, m.prefix, m.cmd] + m.params;
    assert all[1..] == [m.prefix, m.cmd] + m.params;
    assert all[1..][1..] == [m.cmd] + m.params;
    assert all[1..][1..][1..] == m.params;
  }

  lemma {:induction false} ParamCount(ps: seq<Param>, most: int)
    requires ParamsOk(ps, most)
    ensures 1 <= |ps| <= most
    decreases |ps|
  {
    if |ps| > 1 { ParamCount(ps[1..], most - 1); }
  }

  // ---------------------------------------------------------------- ordinary messages

  /**
   * A message as RFC 1459 writes it: optional nonempty tags and prefix, a command, then middle
   * parameters and a last one that may hold anything but CR.
   */
  datatype Plain = Plain(tags: Option<seq<Byte>>, prefix: Option<seq<Byte>>, cmd: seq<Byte>,
                         middle: seq<seq<Byte>>, last: seq<Byte>)

  function LeadFor(w: Option<seq<Byte>>): Option<Lead> { if w.None? then None else Some(Lead(w.value, 1)) }

  function ParamsFor(middle: seq<seq<Byte>>, last: seq<Byte>): seq<Param> {
    if middle == [] then [Param(1, true, last)]
    else [Param(1, false, middle[0])] + ParamsFor(middle[1..], last)
  }

  function ShapeFor(p: Plain): Shape { Shape(LeadFor(p.tags), LeadFor(p.prefix), p.cmd, ParamsFor(p.middle, p.last)) }

  predicate MiddleOk(w: seq<Byte>) { w != [] && IsWord(w) && w[0] != COLON }

  predicate PlainOk(p: Plain) {
    && (p.tags.Some? ==> IsWord(p.tags.value)) && (p.prefix.Some? ==> IsWord(p.prefix.value))
    && p.cmd != [] && IsWord(p.cmd) && p.cmd[0] != COLON && p.cmd[0] != AT
    && |p.middle| <= 2 && NoCR(p.last) && forall i :: 0 <= i < |p.middle| ==> MiddleOk(p.middle[i])
  }

  lemma {:induction false} PlainParams(middle: seq<seq<Byte>>, last: seq<Byte>, most: int)
    requires NoCR(last) && |middle| < most && forall i :: 0 <= i < |middle| ==> MiddleOk(middle[i])
    ensures ParamsOk(ParamsFor(middle, last), most) && ParamsFor(middle, last)[0].gap == 1
    ensures |ParamsFor(middle, last)| == |middle| + 1
    ensures forall i :: 0 <= i < |middle| ==> ParamsFor(middle, last)[i].text == middle[i]
    ensures ParamsFor(middle, last)[|middle|].text == last
    decreases |middle|
  {
    var ps := ParamsFor(middle, last);
    if middle == [] {
      assert ps[1..] == [];
    } else {
      var more := ParamsFor(middle[1..], last);
      PlainParams(middle[1..], last, most - 1);
      assert ps[1..] == more;
      PrintedGap(more);
      forall i | 0 <= i < |middle| ensures ps[i].text == middle[i] {
        if i > 0 { assert ps[i] == more[i - 1] && middle[i] == middle[1..][i - 1]; }
      }
    }
  }

  /** Printing an ordinary message and parsing it gives back the tags, the prefix, the command and every parameter. */
  lemma PlainRoundTrip(p: Plain)
    requires PlainOk(p) && |Stored(ShapeFor(p))| <= BUFFER
    ensures var r := Parse(Print(ShapeFor(p)));
            && r.Some?
            && var m := r.value;
            && |m.params| == |p.middle| + 1
            && Tiled([m.tags, m.prefix, m.cmd] + m.params, 0, |m.out|)
            && m.tags.at + m.tags.len <= |m.out| && At(m.out, m.tags) == p.tags.GetOr([])
            && m.prefix.at + m.prefix.len <= |m.out| && At(m.out, m.prefix) == p.prefix.GetOr([])
            && m.cmd.at + m.cmd.len <= |m.out| && At(m.out, m.cmd) == p.cmd
            && forall i :: 0 <= i <= |p.middle| ==>
                 && m.params[i].at + m.params[i].len <= |m.out|
                 && At(m.out, m.params[i]) == if i < |p.middle| then p.middle[i] else p.last
  {
    hide Texts, Slices, Tiled, ParamsOk, Parse, Print, Stored, Meaning, ParamsFor, WellFormed;
    var s := ShapeFor(p);
    PlainParams(p.middle, p.last, PARAMS_MAX - 1);
    PlainWellFormed(p);
    ParsePrinted(s);
    SlicesTileBuffer(Print(s));
    MeaningHolds(s);
  }

  /** Every slice of a message's meaning holds the field it stands for. */
  lemma MeaningHolds(s: Shape)
    ensures var m := Meaning(s);
            && |m.params| == |s.params|
            && m.tags.at + m.tags.len <= |m.out| && At(m.out, m.tags) == Text(s.tags)
            && m.prefix.at + m.prefix.len <= |m.out| && At(m.out, m.prefix) == Text(s.prefix)
            && m.cmd.at + m.cmd.len <= |m.out| && At(m.out, m.cmd) == s.cmd
            && forall k :: 0 <= k < |s.params| ==>
                 m.params[k].at + m.params[k].len <= |m.out| && At(m.out, m.params[k]) == s.params[k].text
  {
    hide Texts, Slices, Text;
    var before := Text(s.tags) + Text(s.prefix) + s.cmd;
    SlicesTile(s.params, |before|);
    forall k | 0 <= k < |s.params|
      ensures var q := Slices(s.params, |before|);
              |q| == |s.params| && q[k].at + q[k].len <= |before + Texts(s.params)|
              && At(before + Texts(s.params), q[k]) == s.params[k].text
    {
      SlicesHold(s.params, before, k);
    }
  }

  lemma PlainWellFormed(p: Plain)
    requires PlainOk(p)
    ensures WellFormed(ShapeFor(p))
  {
    var s := ShapeFor(p);
    PlainParams(p.middle, p.last, PARAMS_MAX - 1);
    PrintedGap(s.params);
    assert PrintCmd(s)[0] == p.cmd[0];
    assert StartsWith(PrintPrefix(s), if p.prefix.Some? then COLON else p.cmd[0]);
  }
}
