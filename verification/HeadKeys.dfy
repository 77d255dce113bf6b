/**
 The names of head versions (internal/replica/head.go: `headVersion.key`,
 `parseHeadKey`). A name spells out epoch, token, sequence number and claim time
 so that listing the keys in string order shows the newest version first.
 */
module HeadKeys {
  import opened Options

  const MAX_UINT64: nat := 0xFFFF_FFFF_FFFF_FFFF
  const TOKEN_LENGTH: nat := 36

  datatype Version = Version(epoch: nat, token: string, seqno: nat, claim: nat)

  // ----- Padded decimals -----

  function Digit(d: nat): char
    requires d < 10
  {
    ('0' as int + d) as char
  }

  /** Zero-padded to at least `width` digits; longer numbers are not cut. */
  function Padded(n: nat, width: nat): string
    decreases n, width
  {
    if n == 0 && width == 0 then ""
    else Padded(n / 10, if width == 0 then 0 else width - 1) + [Digit(n % 10)]
  }

  function PowerOfTen(width: nat): nat { if width == 0 then 1 else 10 * PowerOfTen(width - 1) }

  predicate IsDigit(c: char) { '0' <= c <= '9' }

  function Value(s: string): Option<nat> {
    if s == "" then Some(0)
    else
      var front := Value(s[..|s| - 1]);
      if front.None? || !IsDigit(s[|s| - 1]) then None
      else Some(front.value * 10 + (s[|s| - 1] as int - '0' as int))
  }

  /** `ParseUint` and, for the few digits of a claim time, `ParseInt`: the empty string and overflow are errors. */
  function Parse64(s: string): Option<nat> {
    if s == "" || Value(s).None? || Value(s).value > MAX_UINT64 then None else Value(s)
  }

  lemma {:induction false} PaddedLength(n: nat, width: nat)
    ensures |Padded(n, width)| >= width
    ensures |Padded(n, width)| == width <==> n < PowerOfTen(width)
    decreases n, width
  {
    if n > 0 || width > 0 {
      PaddedLength(n / 10, if width == 0 then 0 else width - 1);
    }
  }

  lemma {:induction false} PaddedValue(n: nat, width: nat)
    ensures Value(Padded(n, width)) == Some(n)
    decreases n, width
  {
    if n > 0 || width > 0 {
      var less := if width == 0 then 0 else width - 1;
      PaddedValue(n / 10, less);
      var s := Padded(n, width);
      assert s[..|s| - 1] == Padded(n / 10, less);
    }
  }

  lemma {:induction false} PaddedDigits(n: nat, width: nat, i: nat)
    requires i < |Padded(n, width)|
    ensures IsDigit(Padded(n, width)[i])
    decreases n, width
  {
    var less := if width == 0 then 0 else width - 1;
    if i < |Padded(n / 10, less)| { PaddedDigits(n / 10, less, i); }
  }

  // ----- Splitting -----

  function Split(s: string): (parts: seq<string>)
    ensures |parts| > 0
  {
    if s == "" then [""]
    else
      var rest := Split(s[1..]);
      if s[0] == '_' then [""] + rest else [[s[0]] + rest[0]] + rest[1..]
  }

  lemma {:induction false} SplitFirst(part: string, rest: string)
    requires '_' !in part
    ensures Split(part + "_" + rest) == [part] + Split(rest)
  {
    var s := part + "_" + rest;
    if part == "" {
      assert s[1..] == rest;
    } else {
      SplitFirst(part[1..], rest);
      assert s[1..] == part[1..] + "_" + rest && s[0] == part[0];
      assert [part[0]] + part[1..] == part;
    }
  }

  lemma {:induction false} SplitLast(part: string)
    requires '_' !in part
    ensures Split(part) == [part]
  {
    if part != "" {
      SplitLast(part[1..]);
      assert [part[0]] + part[1..] == part;
    }
  }

  lemma {:induction false} PaddedHasNoSeparator(n: nat, width: nat)
    ensures '_' !in Padded(n, width)
  {
    forall i | 0 <= i < |Padded(n, width)| ensures Padded(n, width)[i] != '_' {
      PaddedDigits(n, width, i);
    }
  }

  // ----- Keys -----

  function Name(v: Version): string
    requires v.epoch <= MAX_UINT64 && v.seqno <= MAX_UINT64
  {
    Padded(MAX_UINT64 - v.epoch, 20) + "_" +
        (v.token + "_" + (Padded(MAX_UINT64 - v.seqno, 20) + "_" + Padded(v.claim, 13)))
  }

  function Key(prefix: string, v: Version): string
    requires v.epoch <= MAX_UINT64 && v.seqno <= MAX_UINT64
  {
    prefix + Name(v) + ".json"
  }

  function ParseName(name: string): Option<Version> {
    var parts := Split(name);
    if |parts| != 4 || |parts[0]| != 20 || |parts[1]| != TOKEN_LENGTH || |parts[2]| != 20 || |parts[3]| != 13 then None
    else
      var epoch, seqno, claim := Parse64(parts[0]), Parse64(parts[2]), Parse64(parts[3]);
      if epoch.None? || seqno.None? || claim.None? then None
      else Some(Version(MAX_UINT64 - epoch.value, parts[1], MAX_UINT64 - seqno.value, claim.value))
  }

  function ParseKey(prefix: string, key: string): Option<Version> {
    if !(prefix <= key) then None
    else
      var rest := key[|prefix|..];
      if |rest| < 5 || rest[|rest| - 5..] != ".json" then None
      else ParseName(rest[..|rest| - 5])
  }

  lemma NameParts(v: Version)
    requires v.epoch <= MAX_UINT64 && v.seqno <= MAX_UINT64 && '_' !in v.token
    ensures Split(Name(v)) ==
            [Padded(MAX_UINT64 - v.epoch, 20), v.token, Padded(MAX_UINT64 - v.seqno, 20), Padded(v.claim, 13)]
  {
    PaddedHasNoSeparator(MAX_UINT64 - v.epoch, 20);
    PaddedHasNoSeparator(MAX_UINT64 - v.seqno, 20);
    PaddedHasNoSeparator(v.claim, 13);
    SplitLast(Padded(v.claim, 13));
    SplitFirst(Padded(MAX_UINT64 - v.seqno, 20), Padded(v.claim, 13));
    SplitFirst(v.token, Padded(MAX_UINT64 - v.seqno, 20) + "_" + Padded(v.claim, 13));
    SplitFirst(Padded(MAX_UINT64 - v.epoch, 20), v.token + "_" +
        (Padded(MAX_UINT64 - v.seqno, 20) + "_" + Padded(v.claim, 13)));
  }

  lemma Powers()
    ensures PowerOfTen(13) == 10_000_000_000_000 && PowerOfTen(20) == 100_000_000_000_000_000_000 > MAX_UINT64
  {
    assert PowerOfTen(5) == 100_000;
    assert PowerOfTen(10) == 10_000_000_000;
    assert PowerOfTen(15) == 1_000_000_000_000_000;
  }

  lemma ParsePadded(n: nat, width: nat)
    requires n <= MAX_UINT64 && width > 0
    ensures Parse64(Padded(n, width)) == Some(n)
  {
    PaddedValue(n, width);
    PaddedLength(n, width);
  }

  lemma FieldLengths(v: Version)
    requires v.epoch <= MAX_UINT64 && v.seqno <= MAX_UINT64
    ensures |Padded(MAX_UINT64 - v.epoch, 20)| == 20 && |Padded(MAX_UINT64 - v.seqno, 20)| == 20
    ensures |Padded(v.claim, 13)| == 13 <==> v.claim < 10_000_000_000_000
  {
    Powers();
    PaddedLength(MAX_UINT64 - v.epoch, 20);
    PaddedLength(MAX_UINT64 - v.seqno, 20);
    PaddedLength(v.claim, 13);
  }

  lemma ParseInvertsName(v: Version)
    requires v.epoch <= MAX_UINT64 && v.seqno <= MAX_UINT64 && '_' !in v.token && |v.token| == TOKEN_LENGTH
    ensures ParseName(Name(v)) == if v.claim < 10_000_000_000_000 then Some(v) else None
  {
    NameParts(v);
    FieldLengths(v);
    ParsePadded(MAX_UINT64 - v.epoch, 20);
    ParsePadded(MAX_UINT64 - v.seqno, 20);
    if v.claim < 10_000_000_000_000 { ParsePadded(v.claim, 13); }
  }

  lemma ParseWrapped(prefix: string, name: string)
    ensures ParseKey(prefix, prefix + name + ".json") == ParseName(name)
  {
    var rest := name + ".json";
    assert (prefix + name + ".json")[|prefix|..] == rest;
    assert rest[|rest| - 5..] == ".json" && rest[..|rest| - 5] == name;
  }

  /**
   Parsing inverts naming for every token of the right shape, exactly as long as
   the claim time has at most thirteen digits.
   */
  lemma ParseInvertsKey(prefix: string, v: Version)
    requires v.epoch <= MAX_UINT64 && v.seqno <= MAX_UINT64 && '_' !in v.token && |v.token| == TOKEN_LENGTH
    ensures ParseKey(prefix, Key(prefix, v)) == if v.claim < 10_000_000_000_000 then Some(v) else None
  {
    ParseWrapped(prefix, Name(v));
    ParseInvertsName(v);
  }

  const SomeToken: string := seq(TOKEN_LENGTH, _ => 'a')

  /**
   A claim made ten trillion milliseconds after 1970 has a name that is refused; one a millisecond
   before it is read back.
   */
  lemma LateClaimIsRefused(prefix: string)
    ensures var late, last := Version(1, SomeToken, 0, 10_000_000_000_000), Version(1, SomeToken, 0, 9_999_999_999_999);
            ParseKey(prefix, Key(prefix, late)) == None && ParseKey(prefix, Key(prefix, last)) == Some(last)
  {
    assert '_' !in SomeToken;
    ParseInvertsKey(prefix, Version(1, SomeToken, 0, 10_000_000_000_000));
    ParseInvertsKey(prefix, Version(1, SomeToken, 0, 9_999_999_999_999));
  }

  // ----- String order -----

  predicate Less(s: string, t: string) {
    t != "" && (s == "" || s[0] < t[0] || (s[0] == t[0] && Less(s[1..], t[1..])))
  }

  lemma {:induction false} LessBehind(p: string, s: string, t: string)
    ensures Less(p + s, p + t) <==> Less(s, t)
  {
    if p == "" {
      assert p + s == s && p + t == t;
    } else {
      assert (p + s)[1..] == p[1..] + s && (p + t)[1..] == p[1..] + t;
      LessBehind(p[1..], s, t);
    }
  }

  /** The first differing character of equally long strings decides, whatever follows. */
  lemma {:induction false} LessDecides(s: string, t: string, x: string, y: string)
    requires |s| == |t| && s != t
    ensures Less(s + x, t + y) <==> Less(s, t)
  {
    assert (s + x)[1..] == s[1..] + x && (t + y)[1..] == t[1..] + y;
    if s[0] == t[0] {
      assert s == [s[0]] + s[1..] && t == [t[0]] + t[1..];
      LessDecides(s[1..], t[1..], x, y);
    }
  }

  /** Padded numbers of the same width are ordered like the numbers. */
  lemma {:induction false} PaddedOrder(m: nat, n: nat, width: nat)
    requires m < n < PowerOfTen(width)
    ensures |Padded(m, width)| == |Padded(n, width)| && Padded(m, width) != Padded(n, width)
    ensures Less(Padded(m, width), Padded(n, width))
    decreases width
  {
    PaddedLength(m, width);
    PaddedLength(n, width);
    var s, t := Padded(m / 10, width - 1), Padded(n / 10, width - 1);
    PaddedLength(m / 10, width - 1);
    PaddedLength(n / 10, width - 1);
    PaddedValue(m, width);
    PaddedValue(n, width);
    if m / 10 < n / 10 {
      PaddedOrder(m / 10, n / 10, width - 1);
      LessDecides(s, t, [Digit(m % 10)], [Digit(n % 10)]);
    } else {
      LessBehind(s, [Digit(m % 10)], [Digit(n % 10)]);
    }
  }

  /** Everything behind the epoch. */
  function AfterEpoch(v: Version): string
    requires v.seqno <= MAX_UINT64
  {
    "_" + v.token + "_" + AfterToken(v)
  }

  function AfterToken(v: Version): string
    requires v.seqno <= MAX_UINT64
  {
    Padded(MAX_UINT64 - v.seqno, 20) + ("_" + Padded(v.claim, 13) + ".json")
  }

  lemma KeyFromLeft(prefix: string, v: Version)
    requires v.epoch <= MAX_UINT64 && v.seqno <= MAX_UINT64
    ensures Key(prefix, v) == prefix + (Padded(MAX_UINT64 - v.epoch, 20) + AfterEpoch(v))
  {
  }

  lemma NewerEpochFirst(v: Version, w: Version)
    requires w.epoch < v.epoch <= MAX_UINT64 && v.seqno <= MAX_UINT64 && w.seqno <= MAX_UINT64
    ensures Less(Padded(MAX_UINT64 - v.epoch, 20) + AfterEpoch(v), Padded(MAX_UINT64 - w.epoch, 20) + AfterEpoch(w))
  {
    Powers();
    PaddedOrder(MAX_UINT64 - v.epoch, MAX_UINT64 - w.epoch, 20);
    LessDecides(Padded(MAX_UINT64 - v.epoch, 20), Padded(MAX_UINT64 - w.epoch, 20), AfterEpoch(v), AfterEpoch(w));
  }

  lemma NewerVersionFirst(v: Version, w: Version)
    requires w.seqno < v.seqno <= MAX_UINT64
    ensures Less(AfterToken(v), AfterToken(w))
  {
    Powers();
    PaddedOrder(MAX_UINT64 - v.seqno, MAX_UINT64 - w.seqno, 20);
    LessDecides(Padded(MAX_UINT64 - v.seqno, 20), Padded(MAX_UINT64 - w.seqno, 20),
                "_" + Padded(v.claim, 13) + ".json", "_" + Padded(w.claim, 13) + ".json");
  }

  /** Within an epoch names are grouped by token, in the order of the tokens. */
  lemma TokenDecides(v: Version, w: Version)
    requires v.seqno <= MAX_UINT64 && w.seqno <= MAX_UINT64 && |v.token| == |w.token| && v.token != w.token
    ensures Less(AfterEpoch(v), AfterEpoch(w)) <==> Less(v.token, w.token)
  {
    assert AfterEpoch(v) == "_" + (v.token + ("_" + AfterToken(v)));
    assert AfterEpoch(w) == "_" + (w.token + ("_" + AfterToken(w)));
    LessBehind("_", v.token + ("_" + AfterToken(v)), w.token + ("_" + AfterToken(w)));
    LessDecides(v.token, w.token, "_" + AfterToken(v), "_" + AfterToken(w));
  }

  /**
   String order is newest first: by descending epoch, then by token, then by
   descending sequence number.
   */
  lemma NewestFirst(prefix: string, v: Version, w: Version)
    requires v.epoch <= MAX_UINT64 && v.seqno <= MAX_UINT64 && w.epoch <= MAX_UINT64 && w.seqno <= MAX_UINT64
    requires |v.token| == |w.token|
    requires || v.epoch > w.epoch
             || (v.epoch == w.epoch && v.token != w.token && Less(v.token, w.token))
             || (v.epoch == w.epoch && v.token == w.token && v.seqno > w.seqno)
    ensures Less(Key(prefix, v), Key(prefix, w))
  {
    var pv, pw := Padded(MAX_UINT64 - v.epoch, 20), Padded(MAX_UINT64 - w.epoch, 20);
    KeyFromLeft(prefix, v);
    KeyFromLeft(prefix, w);
    LessBehind(prefix, pv + AfterEpoch(v), pw + AfterEpoch(w));
    if v.epoch > w.epoch {
      NewerEpochFirst(v, w);
    } else {
      LessBehind(pv, AfterEpoch(v), AfterEpoch(w));
      if v.token != w.token {
        TokenDecides(v, w);
      } else {
        NewerVersionFirst(v, w);
        LessBehind("_" + v.token + "_", AfterToken(v), AfterToken(w));
      }
    }
  }
}
