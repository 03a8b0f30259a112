/** The '@'-separated greeting a casting device opens the connection with:
    name, mime type, width, height and initial orientation. */
module ClientInfo {
  import opened Bytes
  import opened Wrappers

  const AT: byte := 64
  const FLAG: seq<byte> := [AT, AT, AT, AT, AT]

  datatype Info = Info(mime: seq<byte>, width: int, height: int, orientation: int)

  /** The receiver starts from orientation 1 and zero sizes. */
  const DEFAULTS := Info([], 0, 0, 1)

  // ----- C string helpers

  predicate NoNul(s: seq<byte>) { 0 !in s }

  function UpToNul(s: seq<byte>): (r: seq<byte>)
    ensures NoNul(s) ==> r == s
    ensures r <= s && NoNul(r) && (|r| < |s| ==> s[|r|] == 0)
  {
    if s == [] || s[0] == 0 then [] else [s[0]] + UpToNul(s[1..])
  }

  function AtIndex(s: seq<byte>): (k: nat)
    ensures k <= |s|
    ensures k < |s| ==> s[k] == AT
    ensures forall i :: 0 <= i < k ==> s[i] != AT
  {
    if s == [] || s[0] == AT then 0 else 1 + AtIndex(s[1..])
  }

  /** strsep with a delimiter string of '@'s only: cut at the first '@'. */
  function StrSep(s: seq<byte>): (r: (seq<byte>, Option<seq<byte>>)) {
    var k := AtIndex(s);
    (s[..k], if k < |s| then Some(s[k + 1..]) else None)
  }

  predicate IsDigit(c: byte) { 48 <= c <= 57 }

  function Digits(s: seq<byte>, acc: int): int {
    if s == [] || !IsDigit(s[0]) then acc else Digits(s[1..], 10 * acc + (s[0] - 48))
  }

  function Atoi(s: seq<byte>): int {
    if s == [] then 0
    else if s[0] == 32 || 9 <= s[0] <= 13 then Atoi(s[1..])
    else if s[0] == 45 then -Digits(s[1..], 0)
    else if s[0] == 43 then Digits(s[1..], 0)
    else Digits(s, 0)
  }

  // ----- What the receiver reads

  function Piece(p: seq<byte>): seq<seq<byte>> { if p == [] then [] else [p] }

  /** The non-empty pieces between '@'s, the first of which continues `cur`. */
  function Pieces(cur: seq<byte>, s: seq<byte>): seq<seq<byte>>
    decreases |s|
  {
    if s == [] then Piece(cur)
    else if s[0] == AT then Piece(cur) + Pieces([], s[1..])
    else Pieces(cur + [s[0]], s[1..])
  }

  function Tokens(s: seq<byte>): seq<seq<byte>> { Pieces([], s) }

  lemma {:induction false} PiecesSplit(cur: seq<byte>, a: seq<byte>, b: seq<byte>)
    ensures Pieces(cur, a + [AT] + b) == Pieces(cur, a) + Tokens(b)
    decreases |a|
  {
    var s := a + [AT] + b;
    if a == [] {
      assert s[1..] == b;
    } else {
      assert s[1..] == a[1..] + [AT] + b;
      PiecesSplit(if a[0] == AT then [] else cur + [a[0]], a[1..], b);
    }
  }

  lemma {:induction false} PiecesPlain(cur: seq<byte>, s: seq<byte>)
    requires AT !in s
    ensures Pieces(cur, s) == Piece(cur + s)
    decreases |s|
  {
    if s == [] {
      assert cur + s == cur;
    } else {
      PiecesPlain(cur + [s[0]], s[1..]);
      assert cur + [s[0]] + s[1..] == cur + s;
    }
  }

  lemma TokensSplit(a: seq<byte>, b: seq<byte>)
    ensures Tokens(a + [AT] + b) == Tokens(a) + Tokens(b)
  {
    PiecesSplit([], a, b);
  }

  lemma TokensPlain(s: seq<byte>)
    requires AT !in s
    ensures Tokens(s) == Piece(s)
  {
    PiecesPlain([], s);
    assert [] + s == s;
  }

  function FromTokens(t: seq<seq<byte>>): Info {
    Info(if |t| >= 2 then t[1] else DEFAULTS.mime,
         if |t| >= 3 then Atoi(t[2]) else DEFAULTS.width,
         if |t| >= 4 then Atoi(t[3]) else DEFAULTS.height,
         if |t| >= 5 then Atoi(t[4]) else DEFAULTS.orientation)
  }

  function Parsed(info: seq<byte>): Info { FromTokens(Tokens(UpToNul(info))) }

  function Pending(buff: Option<seq<byte>>): seq<seq<byte>> {
    if buff.Some? then Tokens(buff.value) else []
  }

  lemma TokensStep(done: seq<seq<byte>>, s: seq<byte>)
    ensures var (p, rest) := StrSep(s);
            done + Tokens(s) == (done + Piece(p)) + Pending(rest)
  {
    var (p, rest) := StrSep(s);
    TokensPlain(p);
    if rest.Some? {
      TokensSplit(p, rest.value);
      assert p + [AT] + rest.value == s;
    } else {
      assert p == s;
    }
  }

  /** One more piece, stored by its number. */
  lemma FromTokensStep(t: seq<seq<byte>>, p: seq<byte>)
    ensures var c := FromTokens(t);
            FromTokens(t + [p]) == match |t|
                                   case 1 => c.(mime := p)
                                   case 2 => c.(width := Atoi(p))
                                   case 3 => c.(height := Atoi(p))
                                   case 4 => c.(orientation := Atoi(p))
                                   case _ => c
  {
  }

  /** A piece goes where its number says. */
  method StoreField(c: Info, count: nat, p: seq<byte>, ghost done: seq<seq<byte>>) returns (c': Info)
    requires c == FromTokens(done) && count == |done| + 1
    ensures c' == FromTokens(done + [p])
  {
    FromTokensStep(done, p);
    c' := c;
    match count
    case 2 => c' := c.(mime := p);
    case 3 => c' := c.(width := Atoi(p));
    case 4 => c' := c.(height := Atoi(p));
    case 5 => c' := c.(orientation := Atoi(p));
    case _ =>
  }

  /** The strsep loop of receive_data. */
  method ParseClientInfo(info: seq<byte>) returns (c: Info)
    ensures c == Parsed(info)
    ensures var t := Tokens(UpToNul(info));
            && c.mime == (if |t| >= 2 then t[1] else [])
            && c.width == (if |t| >= 3 then Atoi(t[2]) else 0)
            && c.height == (if |t| >= 4 then Atoi(t[3]) else 0)
            && c.orientation == (if |t| >= 5 then Atoi(t[4]) else 1)
  {
    c := DEFAULTS;
    var count := 0;
    var buff := Some(UpToNul(info));
    ghost var all := Pending(buff);
    ghost var done: seq<seq<byte>> := [];
    while buff.Some?
      invariant done + Pending(buff) == all
      invariant count == |done| && c == FromTokens(done)
      decreases if buff.Some? then 1 + |buff.value| else 0
    {
      TokensStep(done, buff.value);
      var (p, rest) := StrSep(buff.value);
      buff := rest;
      if p != [] {
        count := count + 1;
        c := StoreField(c, count, p, done);
        done := done + [p];
      }
    }
  }

  // ----- What the sender writes, and the round trip

  function Decimal(n: nat): (s: seq<byte>)
    ensures s != [] && forall i :: 0 <= i < |s| ==> IsDigit(s[i])
  {
    if n < 10 then [48 + n] else Decimal(n / 10) + [48 + n % 10]
  }

  function Greeting(name: seq<byte>, mime: seq<byte>, width: nat, height: nat, orientation: nat): seq<byte> {
    name + FLAG + (mime + FLAG + (Decimal(width) + FLAG + (Decimal(height) + FLAG + Decimal(orientation))))
  }

  lemma {:induction false} DigitsAppend(s: seq<byte>, c: byte, acc: int)
    requires IsDigit(c) && forall i :: 0 <= i < |s| ==> IsDigit(s[i])
    ensures Digits(s + [c], acc) == 10 * Digits(s, acc) + (c - 48)
  {
    if s != [] {
      assert (s + [c])[1..] == s[1..] + [c];
      DigitsAppend(s[1..], c, 10 * acc + (s[0] - 48));
    }
  }

  lemma {:induction false} AtoiDecimal(n: nat)
    ensures Atoi(Decimal(n)) == Digits(Decimal(n), 0) == n
  {
    if n >= 10 {
      AtoiDecimal(n / 10);
      DigitsAppend(Decimal(n / 10), 48 + n % 10, 0);
    } else {
      assert Decimal(n)[1..] == [];
    }
  }

  lemma {:induction false} DigitsThen(s: seq<byte>, rest: seq<byte>, acc: int)
    requires forall i :: 0 <= i < |s| ==> IsDigit(s[i])
    requires rest == [] || !IsDigit(rest[0])
    ensures Digits(s + rest, acc) == Digits(s, acc)
  {
    if s == [] {
      assert s + rest == rest;
    } else {
      assert (s + rest)[1..] == s[1..] + rest;
      DigitsThen(s[1..], rest, 10 * acc + (s[0] - 48));
    }
  }

  predicate IsBlank(c: byte) { c == 32 || 9 <= c <= 13 }

  /** White space in front and anything but a digit behind a number are ignored, and a sign counts. */
  lemma {:induction false} AtoiReads(blanks: seq<byte>, sign: seq<byte>, n: int, rest: seq<byte>)
    requires n >= 0
    requires forall i :: 0 <= i < |blanks| ==> IsBlank(blanks[i])
    requires sign in [[], [43], [45]] && (rest == [] || !IsDigit(rest[0]))
    ensures Atoi(blanks + (sign + (Decimal(n) + rest))) == if sign == [45] then -n else n
  {
    var number := Decimal(n) + rest;
    var s := sign + number;
    if blanks == [] {
      assert blanks + s == s;
      AtoiDecimal(n);
      DigitsThen(Decimal(n), rest, 0);
      assert number[0] == Decimal(n)[0];
      if sign == [] {
        assert s == number;
      } else {
        assert s[1..] == number;
      }
    } else {
      assert (blanks + s)[1..] == blanks[1..] + s;
      AtoiReads(blanks[1..], sign, n, rest);
    }
  }

  /** Without a digit there is no number. */
  lemma {:induction false} AtoiOfText(blanks: seq<byte>, rest: seq<byte>)
    requires forall i :: 0 <= i < |blanks| ==> IsBlank(blanks[i])
    requires rest == [] || (!IsDigit(rest[0]) && !IsBlank(rest[0]) && rest[0] != 43 && rest[0] != 45)
    ensures Atoi(blanks + rest) == 0
  {
    if blanks == [] {
      assert blanks + rest == rest;
    } else {
      assert (blanks + rest)[1..] == blanks[1..] + rest;
      AtoiOfText(blanks[1..], rest);
    }
  }

  lemma TokensLeadingAt(b: seq<byte>)
    ensures Tokens([AT] + b) == Tokens(b)
  {
    TokensSplit([], b);
    assert [] + [AT] + b == [AT] + b;
  }

  lemma TokensFlag(a: seq<byte>, b: seq<byte>)
    ensures Tokens(a + FLAG + b) == Tokens(a) + Tokens(b)
  {
    var b1 := [AT] + b;
    var b2 := [AT] + b1;
    var b3 := [AT] + b2;
    var b4 := [AT] + b3;
    assert Tokens(b4) == Tokens(b) by {
      TokensLeadingAt(b);
      TokensLeadingAt(b1);
      TokensLeadingAt(b2);
      TokensLeadingAt(b3);
    }
    TokensSplit(a, b4);
    assert a + [AT] + b4 == a + FLAG + b;
  }

  /** For every device name, also one with '@'s in it: its own pieces come first. */
  lemma GreetingTokens(name: seq<byte>, mime: seq<byte>, width: nat, height: nat, orientation: nat)
    requires mime != [] && AT !in mime
    ensures Tokens(Greeting(name, mime, width, height, orientation))
         == Tokens(name) + [mime, Decimal(width), Decimal(height), Decimal(orientation)]
  {
    var w, h, o := Decimal(width), Decimal(height), Decimal(orientation);
    var fromHeight := h + FLAG + o;
    var fromWidth := w + FLAG + fromHeight;
    var fromMime := mime + FLAG + fromWidth;
    calc {
      Tokens(name + FLAG + fromMime);
      { TokensFlag(name, fromMime); TokensFlag(mime, fromWidth); TokensPlain(mime); }
      Tokens(name) + ([mime] + Tokens(fromWidth));
      { TokensFlag(w, fromHeight); TokensPlain(w); }
      Tokens(name) + ([mime] + ([w] + Tokens(fromHeight)));
      { TokensFlag(h, o); TokensPlain(h); TokensPlain(o); }
      Tokens(name) + ([mime] + ([w] + ([h] + [o])));
    }
  }

  /** What the receiver takes for the initial orientation, for every device name: right when the
      name is one piece; an empty name leaves the default, each '@' inside it shifts the fields. */
  lemma GreetingRoundTrip(name: seq<byte>, mime: seq<byte>, width: nat, height: nat, orientation: nat)
    requires mime != [] && AT !in mime
    requires NoNul(name) && NoNul(mime)
    ensures var c := Parsed(Greeting(name, mime, width, height, orientation));
            var pieces := |Tokens(name)|;
            && (pieces == 1 ==> c == Info(mime, width, height, orientation))
            && (pieces == 0 ==> c.orientation == 1)
            && (pieces == 2 ==> c.orientation == height)
            && (pieces == 3 ==> c.orientation == width)
            && (pieces == 4 ==> c.orientation == Atoi(mime))
            && (pieces >= 5 ==> c.orientation == Atoi(Tokens(name)[4]))
  {
    GreetingTokens(name, mime, width, height, orientation);
    AtoiDecimal(width);
    AtoiDecimal(height);
    AtoiDecimal(orientation);
    var g := Greeting(name, mime, width, height, orientation);
    assert NoNul(g);
  }
}
