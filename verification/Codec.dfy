/** The gateway's Base64 variant: RFC 4648 section 4 encoding with padding, an exchange
    of the outer thirds, and a substituted alphabet driven by lookup tables. */
module Codec {
  import opened Common

  type Byte = b: int | 0 <= b < 256

  // ---- The two alphabets ----

  /** `ABC...XYZabc...xyz012...789+/`. */
  function StandardAt(i: int): char
    requires 0 <= i < 64
  {
    if i < 26 then 'A' + i as char
    else if i < 52 then 'a' + (i - 26) as char
    else if i < 62 then '0' + (i - 52) as char
    else if i == 62 then '+' else '/'
  }

  /** The position in the standard alphabet, or -1. */
  function StandardRank(c: char): (i: int)
    ensures -1 <= i < 64
  {
    if 'A' <= c <= 'Z' then c as int - 'A' as int
    else if 'a' <= c <= 'z' then c as int - 'a' as int + 26
    else if '0' <= c <= '9' then c as int - '0' as int + 52
    else if c == '+' then 62 else if c == '/' then 63 else -1
  }

  /** `_doRTgHZBKcGVjlvpC,@aFSx#DPuNJme&i*MzLOEn)sUrthbf%Y^w.(kIQyXqWA!`. */
  function CustomAt(i: int): char
    requires 0 <= i < 64
  {
    if i < 32 then (if i < 16 then FirstRow(i) else SecondRow(i)) else if i < 48 then ThirdRow(i) else LastRow(i)
  }

  function FirstRow(i: int): char
    requires 0 <= i < 16
  {
    match i
    case 0 => '_' case 1 => 'd' case 2 => 'o' case 3 => 'R'
    case 4 => 'T' case 5 => 'g' case 6 => 'H' case 7 => 'Z'
    case 8 => 'B' case 9 => 'K' case 10 => 'c' case 11 => 'G'
    case 12 => 'V' case 13 => 'j' case 14 => 'l' case _ => 'v'
  }

  function SecondRow(i: int): char
    requires 16 <= i < 32
  {
    match i
    case 16 => 'p' case 17 => 'C' case 18 => ',' case 19 => '@'
    case 20 => 'a' case 21 => 'F' case 22 => 'S' case 23 => 'x'
    case 24 => '#' case 25 => 'D' case 26 => 'P' case 27 => 'u'
    case 28 => 'N' case 29 => 'J' case 30 => 'm' case _ => 'e'
  }

  function ThirdRow(i: int): char
    requires 32 <= i < 48
  {
    match i
    case 32 => '&' case 33 => 'i' case 34 => '*' case 35 => 'M'
    case 36 => 'z' case 37 => 'L' case 38 => 'O' case 39 => 'E'
    case 40 => 'n' case 41 => ')' case 42 => 's' case 43 => 'U'
    case 44 => 'r' case 45 => 't' case 46 => 'h' case _ => 'b'
  }

  function LastRow(i: int): char
    requires 48 <= i < 64
  {
    match i
    case 48 => 'f' case 49 => '%' case 50 => 'Y' case 51 => '^'
    case 52 => 'w' case 53 => '.' case 54 => '(' case 55 => 'k'
    case 56 => 'I' case 57 => 'Q' case 58 => 'y' case 59 => 'X'
    case 60 => 'q' case 61 => 'W' case 62 => 'A' case _ => '!'
  }

  /** The position in the custom alphabet, or -1. */
  function CustomRank(c: char): (i: int)
    ensures -1 <= i < 64
  {
    if 'A' <= c <= 'Z' then UpperRank(c) else if 'a' <= c <= 'z' then LowerRank(c) else SymbolRank(c)
  }

  function UpperRank(c: char): (i: int)
    ensures -1 <= i < 64
  {
    match c
    case 'A' => 62 case 'B' => 8 case 'C' => 17 case 'D' => 25
    case 'E' => 39 case 'F' => 21 case 'G' => 11 case 'H' => 6
    case 'I' => 56 case 'J' => 29 case 'K' => 9 case 'L' => 37
    case 'M' => 35 case 'N' => 28 case 'O' => 38 case 'P' => 26
    case 'Q' => 57 case 'R' => 3 case 'S' => 22 case 'T' => 4
    case 'U' => 43 case 'V' => 12 case 'W' => 61 case 'X' => 59
    case 'Y' => 50 case 'Z' => 7 case _ => -1
  }

  function LowerRank(c: char): (i: int)
    ensures -1 <= i < 64
  {
    match c
    case 'a' => 20 case 'b' => 47 case 'c' => 10 case 'd' => 1
    case 'e' => 31 case 'f' => 48 case 'g' => 5 case 'h' => 46
    case 'i' => 33 case 'j' => 13 case 'k' => 55 case 'l' => 14
    case 'm' => 30 case 'n' => 40 case 'o' => 2 case 'p' => 16
    case 'q' => 60 case 'r' => 44 case 's' => 42 case 't' => 45
    case 'u' => 27 case 'v' => 15 case 'w' => 52 case 'x' => 23
    case 'y' => 58 case 'z' => 36 case _ => -1
  }

  function SymbolRank(c: char): (i: int)
    ensures -1 <= i < 64
  {
    match c
    case '!' => 63 case '#' => 24 case '%' => 49 case '&' => 32
    case '(' => 54 case ')' => 41 case '*' => 34 case ',' => 18
    case '.' => 53 case '@' => 19 case '^' => 51 case '_' => 0
    case _ => -1
  }

  lemma StandardRankInverts(i: int)
    requires 0 <= i < 64
    ensures StandardRank(StandardAt(i)) == i && StandardAt(i) as int < 128 && StandardAt(i) != '='
  {
  }

  lemma CustomRankInvertsLow(i: int)
    requires 0 <= i < 32
    ensures CustomRank(CustomAt(i)) == i && CustomAt(i) as int < 128 && CustomAt(i) != '$'
  {
  }

  lemma CustomRankInvertsHigh(i: int)
    requires 32 <= i < 64
    ensures CustomRank(CustomAt(i)) == i && CustomAt(i) as int < 128 && CustomAt(i) != '$'
  {
  }

  lemma CustomRankInverts(i: int)
    requires 0 <= i < 64
    ensures CustomRank(CustomAt(i)) == i && CustomAt(i) as int < 128 && CustomAt(i) != '$'
  {
    hide CustomRank, CustomAt;
    if i < 32 {
      CustomRankInvertsLow(i);
    } else {
      CustomRankInvertsHigh(i);
    }
  }

  lemma AlphabetsInvert(c: char)
    ensures StandardRank(c) >= 0 ==> StandardAt(StandardRank(c)) == c && c as int < 128
    ensures CustomRank(c) >= 0 ==> CustomAt(CustomRank(c)) == c && c as int < 128
  {
  }

  /** The two alphabets, as the source spells them, sixteen characters at a time. */
  lemma AlphabetsAre(i: int)
    requires 0 <= i < 16
    ensures StandardAt(i) == "ABCDEFGHIJKLMNOP"[i] && StandardAt(i + 16) == "QRSTUVWXYZabcdef"[i]
    ensures StandardAt(i + 32) == "ghijklmnopqrstuv"[i] && StandardAt(i + 48) == "wxyz0123456789+/"[i]
    ensures CustomAt(i) == "_doRTgHZBKcGVjlv"[i] && CustomAt(i + 16) == "pC,@aFSx#DPuNJme"[i]
    ensures CustomAt(i + 32) == "&i*MzLOEn)sUrthb"[i] && CustomAt(i + 48) == "f%Y^w.(kIQyXqWA!"[i]
  {
  }

  predicate InStandard(c: char) { c == '=' || StandardRank(c) >= 0 }

  predicate InCustom(c: char) { c == '$' || CustomRank(c) >= 0 }

  function ToCustom(c: char): (r: char)
    requires InStandard(c)
  {
    if c == '=' then '$' else CustomAt(StandardRank(c))
  }

  function ToStandard(c: char): (r: char)
    requires InCustom(c)
  {
    if c == '$' then '=' else StandardAt(CustomRank(c))
  }

  /** Substitution is a bijection between the two padded alphabets. */
  lemma SubstitutionInverts(c: char)
    ensures InStandard(c) ==> InCustom(ToCustom(c)) && ToStandard(ToCustom(c)) == c
    ensures InCustom(c) ==> InStandard(ToStandard(c)) && ToCustom(ToStandard(c)) == c
  {
    hide StandardAt, CustomAt, StandardRank, CustomRank;
    AlphabetsInvert(c);
    if StandardRank(c) >= 0 {
      CustomRankInverts(StandardRank(c));
    }
    if CustomRank(c) >= 0 {
      StandardRankInverts(CustomRank(c));
    }
  }

  // ---- The lookup tables ----

  /** The four tables over the 128 ASCII codes. */
  class Tables {
    const s2c: array<char>
    const c2s: array<char>
    const s2cOK: array<bool>
    const c2sOK: array<bool>

    /** Entry ch of each table says what the alphabets say of the character ch. */
    ghost predicate Valid()
      reads this, s2c, c2s, s2cOK, c2sOK
    {
      && s2c.Length == c2s.Length == s2cOK.Length == c2sOK.Length == 128
      && (forall ch :: 0 <= ch < 128 ==>
            s2cOK[ch] == InStandard(ch as char) && (s2cOK[ch] ==> s2c[ch] == ToCustom(ch as char)))
      && (forall ch :: 0 <= ch < 128 ==>
            c2sOK[ch] == InCustom(ch as char) && (c2sOK[ch] ==> c2s[ch] == ToStandard(ch as char)))
    }

    constructor ()
      ensures Valid() && fresh(s2c) && fresh(c2s) && fresh(s2cOK) && fresh(c2sOK)
    {
      s2c, c2s := new char[128](_ => '\0'), new char[128](_ => '\0');
      s2cOK, c2sOK := new bool[128](_ => false), new bool[128](_ => false);
      new;
      for i := 0 to 64
        invariant forall ch :: 0 <= ch < 128 ==> s2cOK[ch] == (0 <= StandardRank(ch as char) < i)
        invariant forall ch :: 0 <= ch < 128 && s2cOK[ch] ==> s2c[ch] == CustomAt(StandardRank(ch as char))
        invariant forall ch :: 0 <= ch < 128 ==> c2sOK[ch] == (0 <= CustomRank(ch as char) < i)
        invariant forall ch :: 0 <= ch < 128 && c2sOK[ch] ==> c2s[ch] == StandardAt(CustomRank(ch as char))
      {
        hide StandardAt, CustomAt, StandardRank, CustomRank;
        StandardRankInverts(i);
        CustomRankInverts(i);
        OnlyAtRank(i);
        var s, c := StandardAt(i), CustomAt(i);
        s2c[s as int], s2cOK[s as int] := c, true;
        c2s[c as int], c2sOK[c as int] := s, true;
      }
      hide StandardAt, CustomAt;
      PadsOutside();
      s2c['=' as int], s2cOK['=' as int] := '$', true;
      c2s['$' as int], c2sOK['$' as int] := '=', true;
    }
  }

  lemma OnlyAtRank(i: int)
    requires 0 <= i < 64
    ensures forall c :: StandardRank(c) == i ==> c == StandardAt(i)
    ensures forall c :: CustomRank(c) == i ==> c == CustomAt(i)
  {
    hide StandardAt, CustomAt, StandardRank, CustomRank;
    forall c
      ensures StandardRank(c) == i ==> c == StandardAt(i)
      ensures CustomRank(c) == i ==> c == CustomAt(i)
    {
      AlphabetsInvert(c);
    }
  }

  lemma PadsOutside()
    ensures StandardRank('=') == -1 && CustomRank('$') == -1
  {
  }

  // ---- RFC 4648, section 4 ----

  /** Three bytes as four 6-bit groups. */
  function Group(a: Byte, b: Byte, c: Byte): string {
    [StandardAt(a / 4), StandardAt(a % 4 * 16 + b / 16), StandardAt(b % 16 * 4 + c / 64), StandardAt(c % 64)]
  }

  function Groups(x: seq<Byte>, n: nat): (s: string)
    requires 3 * n <= |x|
    ensures |s| == 4 * n
  {
    if n == 0 then "" else Groups(x, n - 1) + Group(x[3 * n - 3], x[3 * n - 2], x[3 * n - 1])
  }

  /** The last one or two bytes, padded. */
  function Tail(rest: seq<Byte>): (s: string)
    requires |rest| < 3
    ensures |s| == if rest == [] then 0 else 4
  {
    if |rest| == 0 then ""
    else if |rest| == 1 then [StandardAt(rest[0] / 4), StandardAt(rest[0] % 4 * 16), '=', '=']
    else [StandardAt(rest[0] / 4), StandardAt(rest[0] % 4 * 16 + rest[1] / 16), StandardAt(rest[1] % 16 * 4), '=']
  }

  /** `base64.StdEncoding.EncodeToString`. */
  function StdEncoded(x: seq<Byte>): (s: string)
    ensures |s| == (|x| + 2) / 3 * 4
  {
    var n := |x| / 3;
    Groups(x, n) + Tail(x[3 * n..])
  }

  /** Four characters of the alphabet as three bytes, of which the first k are kept. */
  function Ungroup(s: string, k: nat): Option<seq<Byte>>
    requires |s| == 4 && 1 <= k <= 3
  {
    var p, q := StandardRank(s[0]), StandardRank(s[1]);
    var r, t := if k > 1 then StandardRank(s[2]) else 0, if k > 2 then StandardRank(s[3]) else 0;
    if p < 0 || q < 0 || r < 0 || t < 0 then None
    else Some([p * 4 + q / 16, q % 16 * 16 + r / 4, r % 4 * 64 + t][..k])
  }

  /** The full groups: no padding allowed. */
  function FullGroups(s: string, n: nat): Option<seq<Byte>>
    requires 4 * n <= |s|
  {
    if n == 0 then Some([])
    else
      match FullGroups(s, n - 1)
      case None => None
      case Some(x) =>
        match Ungroup(s[4 * n - 4..4 * n], 3)
        case None => None
        case Some(y) => Some(x + y)
  }

  /** How many bytes the last four characters carry. */
  function LastLength(s: string): (k: nat)
    requires |s| == 4
    ensures 1 <= k <= 3
  {
    if s[3] != '=' then 3 else if s[2] != '=' then 2 else 1
  }

  /** `base64.StdEncoding.DecodeString` on text without line breaks: padding only at
      the end, unused trailing bits ignored. */
  function StdDecoded(s: string): Option<seq<Byte>> {
    if |s| % 4 != 0 then None
    else if |s| == 0 then Some([])
    else
      var n := |s| / 4 - 1;
      var last := s[4 * n..];
      match FullGroups(s, n)
      case None => None
      case Some(x) =>
        match Ungroup(last, LastLength(last))
        case None => None
        case Some(y) => Some(x + y)
  }

  lemma Regroup(a: Byte, b: Byte, c: Byte)
    ensures var p, q, r, t := a / 4, a % 4 * 16 + b / 16, b % 16 * 4 + c / 64, c % 64;
            p * 4 + q / 16 == a && q % 16 * 16 + r / 4 == b && r % 4 * 64 + t == c
  {
    assert (a % 4 * 16 + b / 16) / 16 == a % 4 && (a % 4 * 16 + b / 16) % 16 == b / 16;
    assert (b % 16 * 4 + c / 64) / 4 == b % 16 && (b % 16 * 4 + c / 64) % 4 == c / 64;
  }

  /** The number a text of alphabet characters stands for in base 64. */
  function Number(s: string): int
    requires forall i :: 0 <= i < |s| ==> StandardRank(s[i]) >= 0
  {
    if s == [] then 0 else Number(s[..|s| - 1]) * 64 + StandardRank(s[|s| - 1])
  }

  lemma NumberOfFour(p: char, q: char, r: char, t: char)
    requires StandardRank(p) >= 0 && StandardRank(q) >= 0 && StandardRank(r) >= 0 && StandardRank(t) >= 0
    ensures Number([p, q]) == StandardRank(p) * 64 + StandardRank(q)
    ensures Number([p, q, r]) == (StandardRank(p) * 64 + StandardRank(q)) * 64 + StandardRank(r)
    ensures Number([p, q, r, t]) ==
            ((StandardRank(p) * 64 + StandardRank(q)) * 64 + StandardRank(r)) * 64 + StandardRank(t)
  {
    hide StandardRank;
    assert [p][..0] == [] && [p, q][..1] == [p] && [p, q, r][..2] == [p, q] && [p, q, r, t][..3] == [p, q, r];
    assert Number([p][..0]) == 0 && Number([p]) == StandardRank(p);
  }

  /** A group read in base 64 is its three bytes read in base 256. */
  lemma GroupIsNumber(a: Byte, b: Byte, c: Byte)
    ensures var s := Group(a, b, c);
            |s| == 4 && (forall i :: 0 <= i < 4 ==> StandardRank(s[i]) >= 0) && Number(s) == (a * 256 + b) * 256 + c
  {
    hide StandardAt, StandardRank;
    var p, q, r, t := a / 4, a % 4 * 16 + b / 16, b % 16 * 4 + c / 64, c % 64;
    StandardRankInverts(p);
    StandardRankInverts(q);
    StandardRankInverts(r);
    StandardRankInverts(t);
    NumberOfFour(StandardAt(p), StandardAt(q), StandardAt(r), StandardAt(t));
    Regroup(a, b, c);
    SixBits(p, q, r, t, a, b, c);
  }

  lemma SixBits(p: int, q: int, r: int, t: int, a: int, b: int, c: int)
    requires p * 4 + q / 16 == a && q % 16 * 16 + r / 4 == b && r % 4 * 64 + t == c
    ensures ((p * 64 + q) * 64 + r) * 64 + t == (a * 256 + b) * 256 + c
  {
    assert q == q / 16 * 16 + q % 16 && r == r / 4 * 4 + r % 4;
  }

  /** The last one or two bytes, with zero bits behind them and the missing characters
      padded. */
  lemma TailIsNumber(rest: seq<Byte>)
    requires 0 < |rest| < 3
    ensures var s := Tail(rest);
            var k := |rest| + 1;
            && |s| == 4 && (forall i :: k <= i < 4 ==> s[i] == '=')
            && (forall i :: 0 <= i < k ==> StandardRank(s[i]) >= 0)
            && Number(s[..k]) == if |rest| == 1 then rest[0] as int * 16 else (rest[0] as int * 256 + rest[1]) * 4
  {
    hide StandardAt, StandardRank;
    var s := Tail(rest);
    StandardRankInverts(rest[0] / 4);
    if |rest| == 1 {
      StandardRankInverts(rest[0] % 4 * 16);
      NumberOfFour(s[0], s[1], s[1], s[1]);
      assert s[..2] == [s[0], s[1]];
    } else {
      StandardRankInverts(rest[0] % 4 * 16 + rest[1] / 16);
      StandardRankInverts(rest[1] % 16 * 4);
      NumberOfFour(s[0], s[1], s[2], s[2]);
      assert s[..3] == [s[0], s[1], s[2]];
    }
  }

  /** Encoding, group by group: characters 4 i to 4 i + 4 stand for bytes 3 i to 3 i + 3,
      and the last group, if it is not full, for the remaining bytes. */
  lemma EncodingIsNumbers(x: seq<Byte>, i: nat)
    requires 3 * i < |x|
    ensures var s := StdEncoded(x);
            && 4 * i + 4 <= |s|
            && if 3 * i + 3 <= |x| then s[4 * i..4 * i + 4] == Group(x[3 * i], x[3 * i + 1], x[3 * i + 2])
               else |s| == 4 * i + 4 && s[4 * i..] == Tail(x[3 * i..])
  {
    hide Group, Tail;
    var n := |x| / 3;
    if 3 * i + 3 <= |x| {
      GroupsAt(x, n, i + 1);
      assert StdEncoded(x)[4 * i..4 * i + 4] == Groups(x, n)[4 * i..4 * i + 4];
    } else {
      assert i == n && StdEncoded(x)[4 * n..] == Tail(x[3 * n..]);
    }
  }

  lemma GroupInverts(a: Byte, b: Byte, c: Byte)
    ensures Ungroup(Group(a, b, c), 3) == Some([a, b, c]) && LastLength(Group(a, b, c)) == 3
  {
    hide StandardAt, StandardRank;
    StandardRankInverts(a / 4);
    StandardRankInverts(a % 4 * 16 + b / 16);
    StandardRankInverts(b % 16 * 4 + c / 64);
    StandardRankInverts(c % 64);
    Regroup(a, b, c);
    assert [a, b, c][..3] == [a, b, c];
  }

  lemma TailInverts(rest: seq<Byte>)
    requires 0 < |rest| < 3
    ensures LastLength(Tail(rest)) == |rest| && Ungroup(Tail(rest), |rest|) == Some(rest)
  {
    hide StandardAt, StandardRank;
    StandardRankInverts(rest[0] / 4);
    if |rest| == 1 {
      StandardRankInverts(rest[0] % 4 * 16);
      Regroup(rest[0], 0, 0);
      assert Ungroup(Tail(rest), 1).value == rest;
    } else {
      StandardRankInverts(rest[0] % 4 * 16 + rest[1] / 16);
      StandardRankInverts(rest[1] % 16 * 4);
      Regroup(rest[0], rest[1], 0);
      assert Ungroup(Tail(rest), 2).value == rest;
    }
  }

  lemma {:induction false} GroupsInvert(x: seq<Byte>, n: nat, s: string, k: nat)
    requires k <= n && 3 * n <= |x| && Groups(x, n) <= s
    ensures FullGroups(s, k) == Some(x[..3 * k])
  {
    hide Ungroup, Group;
    if k > 0 {
      GroupsInvert(x, n, s, k - 1);
      GroupsAt(x, n, k);
      GroupInverts(x[3 * k - 3], x[3 * k - 2], x[3 * k - 1]);
      assert s[4 * k - 4..4 * k] == Groups(x, n)[4 * k - 4..4 * k];
      assert x[..3 * k] == x[..3 * (k - 1)] + [x[3 * k - 3], x[3 * k - 2], x[3 * k - 1]];
    }
  }

  lemma {:induction false} GroupsAt(x: seq<Byte>, n: nat, k: nat)
    requires 0 < k <= n && 3 * n <= |x|
    ensures Groups(x, n)[4 * k - 4..4 * k] == Group(x[3 * k - 3], x[3 * k - 2], x[3 * k - 1])
  {
    if k < n {
      GroupsAt(x, n - 1, k);
    }
  }

  /** A text of n full groups and a last one decodes group by group. */
  lemma DecodesByParts(s: string, n: nat, x: seq<Byte>, y: seq<Byte>)
    requires |s| == 4 * n + 4 && FullGroups(s, n) == Some(x)
    requires Ungroup(s[4 * n..], LastLength(s[4 * n..])) == Some(y)
    ensures StdDecoded(s) == Some(x + y)
  {
    hide FullGroups, Ungroup, LastLength;
    assert |s| % 4 == 0 && |s| / 4 - 1 == n;
  }

  lemma PaddedRoundTrip(x: seq<Byte>)
    requires |x| % 3 != 0
    ensures StdDecoded(StdEncoded(x)) == Some(x)
  {
    var s, n := StdEncoded(x), |x| / 3;
    hide Ungroup, Group, Tail, LastLength, FullGroups, StdDecoded, Groups;
    GroupsInvert(x, n, s, n);
    TailInverts(x[3 * n..]);
    assert s[4 * n..] == Tail(x[3 * n..]);
    DecodesByParts(s, n, x[..3 * n], x[3 * n..]);
    assert x == x[..3 * n] + x[3 * n..];
  }

  lemma FullTextDecodes(x: seq<Byte>, n: nat)
    requires |x| == 3 * n && n > 0
    ensures StdDecoded(Groups(x, n)) == Some(x)
  {
    hide Ungroup, Group, LastLength, FullGroups, StdDecoded, Groups;
    var s := Groups(x, n);
    var a, b, c := x[3 * n - 3], x[3 * n - 2], x[3 * n - 1];
    GroupsInvert(x, n, s, n - 1);
    GroupsAt(x, n, n);
    GroupInverts(a, b, c);
    assert s[4 * (n - 1)..] == s[4 * n - 4..4 * n] == Group(a, b, c);
    DecodesByParts(s, n - 1, x[..3 * (n - 1)], [a, b, c]);
    assert x == x[..3 * (n - 1)] + [a, b, c];
  }

  lemma UnpaddedRoundTrip(x: seq<Byte>)
    requires |x| % 3 == 0 && x != []
    ensures StdDecoded(StdEncoded(x)) == Some(x)
  {
    hide Groups, StdDecoded;
    assert |Tail(x[3 * (|x| / 3)..])| == 0;
    assert StdEncoded(x) == Groups(x, |x| / 3);
    FullTextDecodes(x, |x| / 3);
  }

  /** RFC 4648 decoding inverts encoding. */
  lemma StdRoundTrip(x: seq<Byte>)
    ensures StdDecoded(StdEncoded(x)) == Some(x)
  {
    if |x| % 3 != 0 {
      PaddedRoundTrip(x);
    } else if x != [] {
      UnpaddedRoundTrip(x);
    } else {
      assert StdEncoded([]) == "";
    }
  }

  lemma {:induction false} GroupsInAlphabet(x: seq<Byte>, n: nat)
    requires 3 * n <= |x|
    ensures forall c :: c in Groups(x, n) ==> InStandard(c)
  {
    if n > 0 {
      GroupsInAlphabet(x, n - 1);
      var a, b, c := x[3 * n - 3], x[3 * n - 2], x[3 * n - 1];
      hide StandardAt, StandardRank;
      StandardRankInverts(a / 4);
      StandardRankInverts(a % 4 * 16 + b / 16);
      StandardRankInverts(b % 16 * 4 + c / 64);
      StandardRankInverts(c % 64);
    }
  }

  lemma EncodedInAlphabet(x: seq<Byte>)
    ensures forall c :: c in StdEncoded(x) ==> InStandard(c)
  {
    GroupsInAlphabet(x, |x| / 3);
    var rest := x[3 * (|x| / 3)..];
    hide StandardAt, StandardRank, Groups;
    if |rest| > 0 {
      StandardRankInverts(rest[0] / 4);
      StandardRankInverts(rest[0] % 4 * 16);
      if |rest| > 1 {
        StandardRankInverts(rest[0] % 4 * 16 + rest[1] / 16);
        StandardRankInverts(rest[1] % 16 * 4);
      }
    }
  }

  // ---- The exchange of the outer thirds ----

  function Swapped(s: string): (r: string)
    ensures |r| == |s|
  {
    var n, a := |s|, |s| / 3;
    s[n - a..] + s[a..n - a] + s[..a]
  }

  /** The exchange takes a text as a first and a last part of equal length around a middle
      that is no shorter and at most two characters longer, and exchanges the outer parts. */
  lemma SwapMeaning(first: string, middle: string, last: string)
    requires |first| == |last| <= |middle| <= |first| + 2
    ensures Swapped(first + middle + last) == last + middle + first
  {
    var s, a := first + middle + last, |first|;
    assert |s| / 3 == a;
    assert s[..a] == first && s[a..|s| - a] == middle && s[|s| - a..] == last;
  }

  lemma SwapInverts(s: string)
    ensures Swapped(Swapped(s)) == s
  {
    var n, a := |s|, |s| / 3;
    var r := Swapped(s);
    assert r[n - a..] == s[..a] && r[a..n - a] == s[a..n - a] && r[..a] == s[n - a..];
    assert s == s[..a] + s[a..n - a] + s[n - a..];
  }

  lemma SwapKeepsMembers(s: string)
    ensures forall c :: c in Swapped(s) <==> c in s
  {
    var n, a := |s|, |s| / 3;
    assert s == s[..a] + s[a..n - a] + s[n - a..];
  }

  // ---- The codec ----

  function MapToCustom(s: string): (r: string)
    requires forall c :: c in s ==> InStandard(c)
    ensures |r| == |s| && forall i :: 0 <= i < |s| ==> r[i] == ToCustom(s[i])
  {
    seq(|s|, i requires 0 <= i < |s| => ToCustom(s[i]))
  }

  function MapToStandard(s: string): (r: string)
    requires forall c :: c in s ==> InCustom(c)
    ensures |r| == |s| && forall i :: 0 <= i < |s| ==> r[i] == ToStandard(s[i])
  {
    seq(|s|, i requires 0 <= i < |s| => ToStandard(s[i]))
  }

  function Encoded(x: seq<Byte>): string {
    EncodedInAlphabet(x);
    SwapKeepsMembers(StdEncoded(x));
    MapToCustom(Swapped(StdEncoded(x)))
  }

  function Decoded(s: string): Option<seq<Byte>> {
    if exists c :: c in s && !InCustom(c) then None else StdDecoded(Swapped(MapToStandard(s)))
  }

  /** Decoding inverts encoding, for every byte sequence. */
  lemma RoundTrip(x: seq<Byte>)
    ensures Decoded(Encoded(x)) == Some(x)
  {
    EncodedInAlphabet(x);
    SwapKeepsMembers(StdEncoded(x));
    hide StdEncoded, StdDecoded, ToCustom, ToStandard, InStandard, InCustom, Swapped;
    var s := Swapped(StdEncoded(x));
    var r := Encoded(x);
    forall i | 0 <= i < |r|
      ensures InCustom(r[i]) && ToStandard(r[i]) == s[i]
    {
      SubstitutionInverts(s[i]);
    }
    assert forall c :: c in r ==> InCustom(c);
    assert MapToStandard(r) == s;
    SwapInverts(StdEncoded(x));
    StdRoundTrip(x);
  }

  /** Distinct inputs have distinct encodings. */
  lemma EncodingIsInjective(x: seq<Byte>, y: seq<Byte>)
    requires Encoded(x) == Encoded(y)
    ensures x == y
  {
    RoundTrip(x);
    RoundTrip(y);
  }

  // ---- Which texts are encodings ----

  /** Whole groups of four, of alphabet characters but for at most two pads at the end. */
  ghost predicate WellFormed(s: string) {
    && |s| % 4 == 0
    && exists pads :: 0 <= pads <= 2 && pads <= |s| && PaddedBy(s, pads)
  }

  ghost predicate PaddedBy(s: string, pads: int)
    requires 0 <= pads <= |s|
  {
    && (forall i :: 0 <= i < |s| - pads ==> StandardRank(s[i]) >= 0)
    && forall i :: |s| - pads <= i < |s| ==> s[i] == '='
  }

  lemma {:induction false} FullGroupsIff(s: string, n: nat)
    requires 4 * n <= |s|
    ensures FullGroups(s, n).Some? <==> forall i :: 0 <= i < 4 * n ==> StandardRank(s[i]) >= 0
  {
    hide StandardRank;
    if n > 0 {
      FullGroupsIff(s, n - 1);
      var last := s[4 * n - 4..4 * n];
      assert last[0] == s[4 * n - 4] && last[1] == s[4 * n - 3] && last[2] == s[4 * n - 2] && last[3] == s[4 * n - 1];
    }
  }

  /** A text decodes exactly when it is well formed. */
  lemma StdDecodesIff(s: string)
    ensures StdDecoded(s).Some? <==> WellFormed(s)
  {
    PadsOutside();
    hide StandardRank;
    if |s| == 0 {
      assert PaddedBy(s, 0);
    } else if |s| % 4 == 0 {
      var n := |s| / 4 - 1;
      var last := s[4 * n..];
      FullGroupsIff(s, n);
      assert last[0] == s[4 * n] && last[1] == s[4 * n + 1] && last[2] == s[4 * n + 2] && last[3] == s[4 * n + 3];
      var pads := 3 - LastLength(last);
      if StdDecoded(s).Some? {
        assert PaddedBy(s, pads);
      }
      if WellFormed(s) {
        var k :| 0 <= k <= 2 && k <= |s| && PaddedBy(s, k);
        assert StandardRank(s[|s| - 1]) >= 0 || s[|s| - 1] == '=';
        assert k == pads;
      }
    }
  }

  /** The gateway's text decodes exactly when all its characters are in the alphabet and,
      substituted and exchanged back, it is well formed. */
  lemma DecodesIff(s: string)
    ensures Decoded(s).Some? <==> (forall c :: c in s ==> InCustom(c)) && WellFormed(Swapped(MapToStandard(s)))
  {
    hide StdDecoded, WellFormed, InCustom, ToStandard, Swapped;
    if forall c :: c in s ==> InCustom(c) {
      StdDecodesIff(Swapped(MapToStandard(s)));
    }
  }

  /** The bits of the last character that carry no byte are zero. */
  predicate TrailingBitsZero(s: string) {
    |s| >= 4 ==>
      var last := s[|s| - 4..];
      match LastLength(last)
      case 1 => StandardRank(last[1]) % 16 == 0
      case 2 => StandardRank(last[2]) % 4 == 0
      case _ => true
  }

  lemma UngroupedAgain(s: string, k: nat)
    requires |s| == 4 && 1 <= k <= 3 && Ungroup(s, k).Some?
    ensures var y := Ungroup(s, k).value;
            && |y| == k
            && (k == 3 ==> Group(y[0], y[1], y[2]) == s)
            && (k == 2 && s[3] == '=' ==> (Tail(y) == s <==> StandardRank(s[2]) % 4 == 0))
            && (k == 1 && s[2] == s[3] == '=' ==> (Tail(y) == s <==> StandardRank(s[1]) % 16 == 0))
  {
    hide StandardAt, StandardRank;
    var p, q := StandardRank(s[0]), StandardRank(s[1]);
    var r, t := if k > 1 then StandardRank(s[2]) else 0, if k > 2 then StandardRank(s[3]) else 0;
    assert (p * 4 + q / 16) / 4 == p && (p * 4 + q / 16) % 4 == q / 16;
    assert (q % 16 * 16 + r / 4) / 16 == q % 16 && (q % 16 * 16 + r / 4) % 16 == r / 4;
    assert (r % 4 * 64 + t) / 64 == r % 4 && (r % 4 * 64 + t) % 64 == t;
    AlphabetsInvert(s[0]);
    AlphabetsInvert(s[1]);
    AlphabetsInvert(s[2]);
    AlphabetsInvert(s[3]);
    if k == 2 {
      StandardRankInverts(r / 4 * 4);
    } else if k == 1 {
      StandardRankInverts(q / 16 * 16);
    }
  }

  lemma {:induction false} FullGroupsAgain(s: string, n: nat)
    requires 4 * n <= |s| && FullGroups(s, n).Some?
    ensures var x := FullGroups(s, n).value; |x| == 3 * n && Groups(x, n) == s[..4 * n]
  {
    hide Ungroup, Group;
    if n > 0 {
      FullGroupsAgain(s, n - 1);
      var before, four := FullGroups(s, n - 1).value, s[4 * n - 4..4 * n];
      UngroupedAgain(four, 3);
      var y := Ungroup(four, 3).value;
      GroupsPrefix(before, y, n - 1);
      assert s[..4 * n] == s[..4 * (n - 1)] + four;
    }
  }

  lemma {:induction false} GroupsPrefix(x: seq<Byte>, y: seq<Byte>, n: nat)
    requires 3 * n <= |x|
    ensures Groups(x + y, n) == Groups(x, n)
  {
    if n > 0 {
      GroupsPrefix(x, y, n - 1);
    }
  }

  /** A text that decodes is the encoding of what it decodes to exactly when its
      unused trailing bits are zero. */
  lemma StdCanonicalIff(s: string)
    requires StdDecoded(s).Some?
    ensures StdEncoded(StdDecoded(s).value) == s <==> TrailingBitsZero(s)
  {
    hide Ungroup, Group, FullGroups;
    if |s| > 0 {
      var n := |s| / 4 - 1;
      var last := s[4 * n..];
      assert last == s[|s| - 4..];
      var k := LastLength(last);
      FullGroupsAgain(s, n);
      UngroupedAgain(last, k);
      var x, y := FullGroups(s, n).value, Ungroup(last, k).value;
      GroupsPrefix(x, y, n);
      assert s == s[..4 * n] + last;
      assert StdDecoded(s).value == x + y;
      if k == 3 {
        FullIsEncoded(x, y, n);
      } else {
        assert (x + y)[3 * n..] == y && |x + y| / 3 == n;
        assert StdEncoded(x + y) == Groups(x, n) + Tail(y);
        assert StdEncoded(x + y)[4 * n..] == Tail(y);
      }
    }
  }

  lemma FullIsEncoded(x: seq<Byte>, y: seq<Byte>, n: nat)
    requires |x| == 3 * n && |y| == 3
    ensures StdEncoded(x + y) == Groups(x, n) + Group(y[0], y[1], y[2])
  {
    hide Group;
    GroupsPrefix(x, y, n);
    assert |x + y| / 3 == n + 1 && (x + y)[3 * (n + 1)..] == [];
    assert Groups(x + y, n + 1) == Groups(x + y, n) + Group(y[0], y[1], y[2]);
  }

  /** The same for the gateway's encoding: a text decodes to something that encodes
      back to it exactly when the trailing bits of its Base64 form are zero. */
  lemma CanonicalIff(s: string)
    requires Decoded(s).Some?
    ensures Encoded(Decoded(s).value) == s <==> TrailingBitsZero(Swapped(MapToStandard(s)))
  {
    hide StdEncoded, StdDecoded, ToCustom, ToStandard, InStandard, InCustom, Swapped, TrailingBitsZero;
    var std := Swapped(MapToStandard(s));
    StdCanonicalIff(std);
    var x := Decoded(s).value;
    EncodedInAlphabet(x);
    SwapKeepsMembers(StdEncoded(x));
    SwapInverts(MapToStandard(s));
    SwapInverts(StdEncoded(x));
    forall i | 0 <= i < |s|
      ensures InStandard(ToStandard(s[i])) && ToCustom(ToStandard(s[i])) == s[i]
    {
      SubstitutionInverts(s[i]);
    }
    var r := Swapped(StdEncoded(x));
    if Encoded(x) == s {
      forall i | 0 <= i < |s|
        ensures r[i] == MapToStandard(s)[i]
      {
        SubstitutionInverts(r[i]);
      }
      assert r == MapToStandard(s);
    }
  }

  /** Copies the thirds into a new buffer, the outer ones exchanged. */
  method Rearrange(std: string) returns (rearranged: string)
    ensures rearranged == Swapped(std)
  {
    var n := |std|;
    var a := n / 3;
    var buffer := new char[n];
    forall i | 0 <= i < a {
      buffer[i] := std[n - a + i];
    }
    forall i | a <= i < n - a {
      buffer[i] := std[i];
    }
    forall i | n - a <= i < n {
      buffer[i] := std[i - (n - a)];
    }
    rearranged := buffer[..];
  }

  /** The lookup never misses. */
  method Encode(tables: Tables, plaintext: seq<Byte>) returns (encoded: string)
    requires tables.Valid()
    ensures encoded == Encoded(plaintext)
  {
    hide InStandard, ToCustom, StdEncoded, Swapped;
    var std := StdEncoded(plaintext);
    var rearranged := Rearrange(std);
    EncodedInAlphabet(plaintext);
    SwapKeepsMembers(std);
    var n := |rearranged|;
    var result := new char[n];
    for i := 0 to n
      invariant forall j :: 0 <= j < i ==> result[j] == ToCustom(rearranged[j])
    {
      var ch := rearranged[i];
      assert InStandard(ch);
      InStandardIsAscii(ch);
      if ch as int >= 128 || !tables.s2cOK[ch as int] {
        assert false;
      }
      result[i] := tables.s2c[ch as int];
    }
    encoded := result[..];
    assert encoded == MapToCustom(Swapped(std));
  }

  lemma InStandardIsAscii(c: char)
    requires InStandard(c)
    ensures c as int < 128
  {
    AlphabetsInvert(c);
  }

  lemma InCustomIsAscii(c: char)
    requires InCustom(c)
    ensures c as int < 128
  {
    AlphabetsInvert(c);
  }

  /** Undoes Encode; None stands for the error of a character outside the alphabet or
      of malformed Base64. */
  method Decode(tables: Tables, encoded: string) returns (plaintext: Option<seq<Byte>>)
    requires tables.Valid()
    ensures plaintext == Decoded(encoded)
  {
    hide InCustom, ToStandard, StdDecoded, Swapped;
    var n := |encoded|;
    var mapped := new char[n];
    for i := 0 to n
      invariant forall j :: 0 <= j < i ==> InCustom(encoded[j]) && mapped[j] == ToStandard(encoded[j])
    {
      var ch := encoded[i];
      if ch as int >= 128 || !tables.c2sOK[ch as int] {
        if InCustom(ch) {
          InCustomIsAscii(ch);
        }
        assert ch in encoded && !InCustom(ch);
        return None;
      }
      mapped[i] := tables.c2s[ch as int];
    }
    assert forall c :: c in encoded ==> InCustom(c);
    assert mapped[..] == MapToStandard(encoded);
    var std := Rearrange(mapped[..]);
    plaintext := StdDecoded(std);
  }
}
