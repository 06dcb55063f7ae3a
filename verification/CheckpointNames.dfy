/** The names of the checkpoint directories (crates/git-ops/src/checkpoint.rs): a session id becomes one path
    segment, and a turn number a padded name, and both can be read back. */
module CheckpointNames {
  import opened Options

  type Byte = b: int | 0 <= b < 256

  // ---------------------------------------------------------------------------
  // Session ids
  // ---------------------------------------------------------------------------

  predicate Safe(b: Byte)
  {
    || 'a' as int <= b <= 'z' as int || 'A' as int <= b <= 'Z' as int || '0' as int <= b <= '9' as int
    || b == '.' as int || b == '_' as int || b == '-' as int
  }

  function HexDigit(n: int): (c: char)
    requires 0 <= n < 16
  {
    if n < 10 then ('0' as int + n) as char else ('A' as int + (n - 10)) as char
  }

  function EncodeByte(b: Byte): (s: string)
  {
    if Safe(b) then [b as char] else ['%', HexDigit(b / 16), HexDigit(b % 16)]
  }

  function Encode(id: seq<Byte>): (s: string)
  {
    if id == [] then "" else EncodeByte(id[0]) + Encode(id[1..])
  }

  lemma EncodeNext(id: seq<Byte>, i: nat)
    requires i < |id|
    ensures forall out: string :: out + Encode(id[i..]) == (out + EncodeByte(id[i])) + Encode(id[i + 1..])
  {
    assert id[i..][0] == id[i] && id[i..][1..] == id[i + 1..];
    forall out: string
      ensures out + Encode(id[i..]) == (out + EncodeByte(id[i])) + Encode(id[i + 1..])
    {
    }
  }

  method SanitizeSessionId(id: seq<Byte>) returns (out: string)
    ensures out == Encode(id)
  {
    out := "";
    for i := 0 to |id|
      invariant out + Encode(id[i..]) == Encode(id)
    {
      var b := id[i];
      EncodeNext(id, i);
      ghost var before := out;
      if Safe(b) {
        out := out + [b as char];
      } else {
        out := out + ['%', HexDigit(b / 16), HexDigit(b % 16)];
      }
      assert out == before + EncodeByte(b);
    }
  }

  function HexValue(c: char): (n: int)
  {
    if '0' <= c <= '9' then c as int - '0' as int
    else if 'A' <= c <= 'F' then c as int - 'A' as int + 10
    else 0
  }

  function ByteOf(c: char): (b: Byte)
    ensures c as int < 256 ==> b == c as int
  {
    c as int % 256
  }

  /** Reads a sanitized id back: an escape is three characters, anything else one. */
  function Decode(s: string): (id: seq<Byte>)
    decreases |s|
  {
    if s == "" then []
    else if s[0] == '%' && |s| >= 3 then [HexValue(s[1]) * 16 + HexValue(s[2])] + Decode(s[3..])
    else [ByteOf(s[0])] + Decode(s[1..])
  }

  lemma HexRoundTrip(n: int)
    requires 0 <= n < 16
    ensures HexValue(HexDigit(n)) == n
  {
  }

  lemma DecodeFirst(b: Byte, rest: string)
    ensures Decode(EncodeByte(b) + rest) == [b] + Decode(rest)
  {
    var s := EncodeByte(b) + rest;
    if Safe(b) {
      assert s[0] == b as char && s[1..] == rest;
    } else {
      HexRoundTrip(b / 16);
      HexRoundTrip(b % 16);
      assert s[0] == '%' && s[1] == HexDigit(b / 16) && s[2] == HexDigit(b % 16) && s[3..] == rest;
    }
  }

  /** Sanitizing is reversible, so distinct ids never share a directory. */
  lemma {:induction false} SanitizeIsReversible(id: seq<Byte>)
    ensures Decode(Encode(id)) == id
  {
    if id != [] {
      SanitizeIsReversible(id[1..]);
      DecodeFirst(id[0], Encode(id[1..]));
    }
  }

  lemma SanitizeIsInjective(a: seq<Byte>, b: seq<Byte>)
    ensures Encode(a) == Encode(b) <==> a == b
  {
    SanitizeIsReversible(a);
    SanitizeIsReversible(b);
  }

  /** The bytes of an id that a directory shows as they are. */
  predicate Shows(id: seq<Byte>, name: string)
  {
    |id| == |name| && forall i :: 0 <= i < |id| ==> id[i] == name[i] as int
  }

  lemma {:induction false} EncodeIsLonger(id: seq<Byte>)
    ensures |Encode(id)| >= |id|
  {
    if id != [] {
      EncodeIsLonger(id[1..]);
    }
  }

  lemma ShowsCons(b: Byte, c: char, id: seq<Byte>, name: string)
    requires b == c as int && Shows(id, name)
    ensures Shows([b] + id, [c] + name)
  {
  }

  /** An id is its own directory name exactly if it has nothing but letters, digits, dots, underscores and
      hyphens. */
  lemma {:induction false} PlainIdsShow(id: seq<Byte>)
    ensures Shows(id, Encode(id)) <==> forall i :: 0 <= i < |id| ==>
      || 'a' <= id[i] as char <= 'z' || 'A' <= id[i] as char <= 'Z' || '0' <= id[i] as char <= '9'
      || id[i] as char == '.' || id[i] as char == '_' || id[i] as char == '-'
  {
    if id != [] {
      PlainIdsShow(id[1..]);
      EncodeIsLonger(id[1..]);
      assert id == [id[0]] + id[1..];
      if Safe(id[0]) {
        if Shows(id[1..], Encode(id[1..])) {
          ShowsCons(id[0], id[0] as char, id[1..], Encode(id[1..]));
        }
        if Shows(id, Encode(id)) {
          assert forall i :: 0 <= i < |id[1..]| ==> id[1..][i] == id[i + 1] && Encode(id[1..])[i] == Encode(id)[i + 1];
        }
      }
    }
  }

  predicate SafeChar(c: char)
  {
    c == '%' || (c as int < 256 && Safe(c as int))
  }

  /** A path component that names an entry of its directory, rather than that directory or the one above. */
  predicate NormalComponent(s: string)
  {
    s != "" && s != "." && s != ".." && forall c :: c in s ==> c != '/' && c != '\\' && c != '\0'
  }

  lemma {:induction false} EncodeIsSafe(id: seq<Byte>)
    ensures forall c :: c in Encode(id) ==> SafeChar(c)
  {
    if id != [] {
      EncodeIsSafe(id[1..]);
      forall c | c in EncodeByte(id[0])
        ensures SafeChar(c)
      {
      }
    }
  }

  const DOT: Byte := 46

  lemma DotsUnchanged()
    ensures Encode([]) == "" && Encode([DOT]) == "." && Encode([DOT, DOT]) == ".."
  {
    assert Encode([DOT][1..]) == "" && [DOT, DOT][1..] == [DOT];
  }

  /** It leaves no separator in the name, so an id becomes one segment; a segment that names a directory of
      its own exactly if the id is not empty, "." or "..", which are left as they are. */
  lemma SanitizeIsOneSegment(id: seq<Byte>)
    ensures '/' !in Encode(id) && '\\' !in Encode(id)
    ensures NormalComponent(Encode(id)) <==> id != [] && id != [DOT] && id != [DOT, DOT]
  {
    EncodeIsSafe(id);
    DotsUnchanged();
    SanitizeIsInjective(id, []);
    SanitizeIsInjective(id, [DOT]);
    SanitizeIsInjective(id, [DOT, DOT]);
  }

  // ---------------------------------------------------------------------------
  // Turn directories
  // ---------------------------------------------------------------------------

  const U32_MAX := 0xFFFF_FFFF

  function Digit(n: nat): (c: char)
    requires n < 10
  {
    ('0' as int + n) as char
  }

  function Decimal(n: nat): (s: string)
    ensures s != "" && forall i :: 0 <= i < |s| ==> '0' <= s[i] <= '9'
  {
    if n < 10 then [Digit(n)] else Decimal(n / 10) + [Digit(n % 10)]
  }

  function Zeros(n: nat): (s: string)
    ensures |s| == n && forall i :: 0 <= i < n ==> s[i] == '0'
  {
    seq(n, i => '0')
  }

  /** "turn-" and at least four digits. */
  function Padded(turn: nat): (s: string)
  {
    var digits := Decimal(turn);
    if |digits| < 4 then Zeros(4 - |digits|) + digits else digits
  }

  function TurnDirName(turn: nat): (name: string)
  {
    "turn-" + Padded(turn)
  }

  function Value(s: string): (n: nat)
    requires forall i :: 0 <= i < |s| ==> '0' <= s[i] <= '9'
  {
    if s == "" then 0 else Value(s[..|s| - 1]) * 10 + (s[|s| - 1] as int - '0' as int)
  }

  /** Strip the prefix, then parse an unsigned 32-bit number, a leading plus sign allowed. */
  function ParseTurn(name: string): (turn: Option<nat>)
  {
    if |name| < 5 || name[..5] != "turn-" then None
    else
      var rest := name[5..];
      var digits := if |rest| > 1 && rest[0] == '+' then rest[1..] else rest;
      if digits == "" || exists i :: 0 <= i < |digits| && !('0' <= digits[i] <= '9') then None
      else if Value(digits) > U32_MAX then None
      else Some(Value(digits))
  }

  lemma {:induction false} DecimalValue(n: nat)
    ensures Value(Decimal(n)) == n
  {
    if n >= 10 {
      DecimalValue(n / 10);
      assert Decimal(n)[..|Decimal(n)| - 1] == Decimal(n / 10);
    }
  }

  lemma {:induction false} LeadingZeros(k: nat, s: string)
    requires forall i :: 0 <= i < |s| ==> '0' <= s[i] <= '9'
    ensures Value(Zeros(k) + s) == Value(s)
    decreases |s|, k
  {
    var padded := Zeros(k) + s;
    if s != "" {
      assert padded[..|padded| - 1] == Zeros(k) + s[..|s| - 1];
      LeadingZeros(k, s[..|s| - 1]);
    } else if k > 0 {
      assert padded[..|padded| - 1] == Zeros(k - 1) + s;
      LeadingZeros(k - 1, s);
    }
  }

  lemma {:induction false} DecimalIsShort(n: nat, limit: nat, digits: nat)
    requires n < limit && digits > 0 && limit == Power10(digits)
    ensures |Decimal(n)| <= digits
  {
    if n >= 10 {
      DecimalIsShort(n / 10, Power10(digits - 1), digits - 1);
    }
  }

  function Power10(digits: nat): (p: nat)
  {
    if digits == 0 then 1 else 10 * Power10(digits - 1)
  }

  /** Up to turn 9999 the number takes exactly four digits. */
  lemma FourDigits(turn: nat)
    requires turn < 10000
    ensures |TurnDirName(turn)| == 9
  {
    assert Power10(1) == 10 && Power10(2) == 100 && Power10(3) == 1000 && Power10(4) == 10000;
    DecimalIsShort(turn, 10000, 4);
  }

  predicate AllDigits(s: string)
  {
    s != "" && forall i :: 0 <= i < |s| ==> '0' <= s[i] <= '9'
  }

  lemma PaddedValue(turn: nat)
    ensures AllDigits(Padded(turn)) && Value(Padded(turn)) == turn
  {
    DecimalValue(turn);
    var digits := Decimal(turn);
    if |digits| < 4 {
      LeadingZeros(4 - |digits|, digits);
    }
  }

  lemma ParseDigits(name: string, rest: string)
    requires name == "turn-" + rest && AllDigits(rest) && Value(rest) <= U32_MAX
    ensures ParseTurn(name) == Some(Value(rest))
  {
    assert name[..5] == "turn-" && name[5..] == rest;
  }

  /** Every turn finds its own directory again. */
  lemma TurnNameRoundTrip(turn: nat)
    requires turn <= U32_MAX
    ensures ParseTurn(TurnDirName(turn)) == Some(turn)
  {
    PaddedValue(turn);
    ParseDigits(TurnDirName(turn), Padded(turn));
  }

  lemma TurnNamesDiffer(a: nat, b: nat)
    requires a <= U32_MAX && b <= U32_MAX
    ensures TurnDirName(a) == TurnDirName(b) <==> a == b
  {
    TurnNameRoundTrip(a);
    TurnNameRoundTrip(b);
  }
}
