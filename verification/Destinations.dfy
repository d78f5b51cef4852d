/** Destinations of a network policy: IPv4 addresses and CIDR blocks, as text and as sets of
    addresses (normalizePolicyDestination in internal/netstack/policy.go). */
module Destinations {
  import opened Domain
  import opened Text

  const SPACE := 0x1_0000_0000

  type Address = x: int | 0 <= x < SPACE

  datatype Dest = Host(a: Address) | Block(a: Address, bits: nat)

  /** Drops the last `n` bits. */
  function Shift(a: int, n: nat): (r: int)
    requires a >= 0
    ensures 0 <= r <= a
  {
    if n == 0 then a else Shift(a / 2, n - 1)
  }

  /** Appends `n` zero bits. */
  function Widen(x: int, n: nat): int { if n == 0 then x else 2 * Widen(x, n - 1) }

  /** A block covers the addresses that agree with it in their first `bits` bits. */
  predicate Covers(d: Dest, ip: Address) {
    match d
    case Host(a) => ip == a
    case Block(a, bits) => bits <= 32 && Shift(a, 32 - bits) == Shift(ip, 32 - bits)
  }

  // ---------------------------------------------------------------------------------------------
  // Text
  // ---------------------------------------------------------------------------------------------

  function ParseOctet(s: string): (r: Option<int>)
    ensures r.Some? ==> 0 <= r.value < 256
  {
    if |s| <= 3 && ParseDigits(s).Some? && ParseDigits(s).value <= 255 && (|s| > 1 ==> s[0] != '0')
    then Some(ParseDigits(s).value) else None
  }

  function ParseAddress(s: string): Option<Address> {
    var p := Split(s, '.');
    if |p| != 4 then None
    else
      var a, b, c, d := ParseOctet(p[0]), ParseOctet(p[1]), ParseOctet(p[2]), ParseOctet(p[3]);
      if a.Some? && b.Some? && c.Some? && d.Some?
      then Some(((a.value * 256 + b.value) * 256 + c.value) * 256 + d.value) else None
  }

  /** An address, or an address, a slash and a prefix length. */
  function ParseDest(s: string): Option<Dest> {
    var p := Split(s, '/');
    if |p| == 1 then
      var a := ParseAddress(s); if a.Some? then Some(Host(a.value)) else None
    else if |p| == 2 && ParseAddress(p[0]).Some? && ParseDigits(p[1]).Some? && ParseDigits(p[1]).value <= 32
    then Some(Block(ParseAddress(p[0]).value, ParseDigits(p[1]).value)) else None
  }

  function HexDigit(c: char): Option<nat> {
    if '0' <= c <= '9' then Some((c - '0') as nat)
    else if 'a' <= c <= 'f' then Some((c - 'a') as nat + 10)
    else if 'A' <= c <= 'F' then Some((c - 'A') as nat + 10) else None
  }

  function ParseHex(s: string): Option<nat> {
    if s == "" then Some(0)
    else
      var rest, last := ParseHex(s[..|s| - 1]), HexDigit(s[|s| - 1]);
      if rest.Some? && last.Some? then Some(16 * rest.value + last.value) else None
  }

  /** A 16-bit group of an IPv6 address: one to four hexadecimal digits. */
  function ParseGroup(s: string): Option<nat> { if 1 <= |s| <= 4 then ParseHex(s) else None }

  /** The groups of colon-separated fields; with `quad` the last field may be a dotted IPv4 address,
      which stands for two groups. */
  function ParseGroups(fields: seq<string>, quad: bool): Option<seq<nat>> {
    if fields == [] then Some([])
    else if |fields| == 1 && quad && ParseAddress(fields[0]).Some? then
      var a := ParseAddress(fields[0]).value; Some([a / 0x1_0000, a % 0x1_0000])
    else
      var g, rest := ParseGroup(fields[0]), ParseGroups(fields[1..], quad);
      if g.Some? && rest.Some? then Some([g.value] + rest.value) else None
  }

  function Zeros(n: nat): (r: seq<nat>)
    ensures |r| == n
  {
    if n == 0 then [] else [0] + Zeros(n - 1)
  }

  /** The groups on one side of a double colon; only the right side may end in a dotted address. */
  function ParseSide(s: string, right: bool): Option<seq<nat>> {
    if s == "" then Some([]) else ParseGroups(Split(s, ':'), right)
  }

  /** Fills in the zeros that a double colon stands for: at least one group. */
  function FillZeros(left: Option<seq<nat>>, right: Option<seq<nat>>): (r: Option<seq<nat>>)
    ensures r.Some? ==> |r.value| == 8
  {
    if left.None? || right.None? || |left.value| + |right.value| > 7 then None
    else Some(left.value + Zeros(8 - |left.value| - |right.value|) + right.value)
  }

  /** The eight groups of an IPv6 address. */
  function ParseIPv6(s: string): (r: Option<seq<nat>>)
    ensures r.Some? ==> |r.value| == 8
  {
    var cut := FirstPair(s, ':');
    if cut < |s| then FillZeros(ParseSide(s[..cut], false), ParseSide(s[cut + 2..], true))
    else
      var g := ParseGroups(Split(s, ':'), true);
      if g.Some? && |g.value| == 8 then g else None
  }

  /** The IPv4 address in the last two groups of an IPv4-mapped IPv6 address. */
  function Unmapped(v: seq<nat>): Option<Address>
    requires |v| == 8
  {
    if v[0] == v[1] == v[2] == v[3] == v[4] == 0 && v[5] == 0xFFFF && v[6] < 0x1_0000 && v[7] < 0x1_0000
    then Some(v[6] * 0x1_0000 + v[7]) else None
  }

  function ParseMapped(s: string): Option<Address> {
    var g := ParseIPv6(s);
    if g.Some? then Unmapped(g.value) else None
  }

  /** What a policy entry names: IPv4 addresses and blocks, also in IPv4-mapped form, where a block's
      prefix length counts from the 96 bits before the IPv4 address. */
  function ParseEntry(s: string): (r: Option<Dest>)
    ensures r.Some? && r.value.Block? ==> r.value.bits <= 32
  {
    var p := Split(s, '/');
    if ParseDest(s).Some? then ParseDest(s)
    else if |p| == 1 then
      var a := ParseMapped(s); if a.Some? then Some(Host(a.value)) else None
    else if |p| == 2 && ParseMapped(p[0]).Some? && ParseDigits(p[1]).Some? && 96 <= ParseDigits(p[1]).value <= 128
    then Some(Block(ParseMapped(p[0]).value, ParseDigits(p[1]).value - 96)) else None
  }

  function Octets(a: Address): seq<string> {
    [Format(a / 0x100_0000), Format(a / 0x1_0000 % 256), Format(a / 256 % 256), Format(a % 256)]
  }

  function FormatAddress(a: Address): string { Join(Octets(a), '.') }

  function FormatDest(d: Dest): string {
    match d
    case Host(a) => FormatAddress(a)
    case Block(a, bits) => FormatAddress(a) + "/" + Format(bits)
  }

  /** Masks the address of a block down to its first one. */
  function Masked(d: Dest): Dest {
    if d.Block? && d.bits <= 32
    then Floor(d.a, 32 - d.bits); Block(Widen(Shift(d.a, 32 - d.bits), 32 - d.bits), d.bits) else d
  }

  /** The canonical text of an entry, or nothing for an unsupported one. */
  function Normalize(raw: string): Option<string> {
    var d := ParseEntry(Trim(raw));
    if d.Some? then Some(FormatDest(Masked(d.value))) else None
  }

  /** What an entry of a policy list covers; an unsupported entry covers nothing. */
  predicate EntryCovers(raw: string, ip: Address) {
    ParseEntry(Trim(raw)).Some? && Covers(ParseEntry(Trim(raw)).value, ip)
  }

  /** What a list of a policy covers. */
  predicate Listed(entries: seq<string>, ip: Address) {
    exists i :: 0 <= i < |entries| && EntryCovers(entries[i], ip)
  }

  // ---------------------------------------------------------------------------------------------
  // Round trips
  // ---------------------------------------------------------------------------------------------

  /** Masking stays in range and in the same block. */
  lemma {:induction false} Floor(a: int, n: nat)
    requires a >= 0
    ensures 0 <= Widen(Shift(a, n), n) <= a && Shift(Widen(Shift(a, n), n), n) == Shift(a, n)
  {
    if n > 0 { Floor(a / 2, n - 1); }
  }

  lemma OctetRoundTrip(n: nat)
    requires n < 256
    ensures ParseOctet(Format(n)) == Some(n)
  {
    ParseFormat(n);
    if n >= 100 { assert |Format(n / 10 / 10)| == 1; }
  }

  lemma OctetsAreDigits(a: Address, i: nat)
    requires i < 4
    ensures '.' !in Octets(a)[i] && '/' !in Octets(a)[i]
  {
  }

  lemma Positional(a: Address)
    ensures ((a / 0x100_0000 * 256 + a / 0x1_0000 % 256) * 256 + a / 256 % 256) * 256 + a % 256 == a
  {
    assert a / 0x100_0000 == a / 256 / 256 / 256 && a / 0x1_0000 == a / 256 / 256;
  }

  lemma SplitAddress(a: Address)
    ensures Split(FormatAddress(a), '.') == Octets(a) && '/' !in FormatAddress(a)
  {
    var p := Octets(a);
    forall i | 0 <= i < 4 ensures '.' !in p[i] && '/' !in p[i] { OctetsAreDigits(a, i); }
    SplitJoin(p, '.');
    JoinHas(p, '.', '/');
  }

  lemma AddressRoundTrip(a: Address)
    ensures ParseAddress(FormatAddress(a)) == Some(a)
    ensures '/' !in FormatAddress(a)
  {
    SplitAddress(a);
    Positional(a);
    OctetRoundTrip(a / 0x100_0000);
    OctetRoundTrip(a / 0x1_0000 % 256);
    OctetRoundTrip(a / 256 % 256);
    OctetRoundTrip(a % 256);
  }

  lemma {:induction false} JoinHas(parts: seq<string>, sep: char, c: char)
    requires |parts| >= 1 && c != sep && forall i :: 0 <= i < |parts| ==> c !in parts[i]
    ensures c !in Join(parts, sep)
  {
    if |parts| > 1 { JoinHas(parts[1..], sep, c); }
  }

  lemma DestRoundTrip(d: Dest)
    requires d.Block? ==> d.bits <= 32
    ensures ParseDest(FormatDest(d)) == Some(d)
  {
    AddressRoundTrip(d.a);
    if d.Block? {
      var p := [FormatAddress(d.a), Format(d.bits)];
      assert FormatDest(d) == Join(p, '/');
      SplitJoin(p, '/');
      ParseFormat(d.bits);
    } else {
      SplitJoin([FormatAddress(d.a)], '/');
    }
  }

  lemma MaskKeepsBlock(d: Dest, ip: Address)
    ensures Covers(Masked(d), ip) == Covers(d, ip)
  {
    if d.Block? && d.bits <= 32 { Floor(d.a, 32 - d.bits); }
  }

  /** Normalising an entry keeps what it covers: the text handed to iptables denotes the block the
      policy named. */
  lemma NormalizeKeepsMeaning(raw: string, ip: Address)
    ensures Normalize(raw).Some? == ParseEntry(Trim(raw)).Some?
    ensures Normalize(raw).Some? ==> ParseDest(Normalize(raw).value).Some?
                                     && Covers(ParseDest(Normalize(raw).value).value, ip) == EntryCovers(raw, ip)
  {
    var d := ParseEntry(Trim(raw));
    if d.Some? {
      DestRoundTrip(Masked(d.value));
      MaskKeepsBlock(d.value, ip);
    }
  }

  /** A group and a dotted address. */
  lemma QuadGroups(group: string, quad: string, g: nat, a: Address)
    requires ParseGroup(group) == Some(g) && ParseAddress(quad) == Some(a)
    ensures ParseGroups([group, quad], true) == Some([g, a / 0x1_0000, a % 0x1_0000])
  {
    var fields, low := [group, quad], [a / 0x1_0000, a % 0x1_0000];
    assert fields[1..] == [quad] && |fields| == 2;
    assert ParseGroups([quad], true) == Some(low);
    assert ParseGroups(fields, true) == Some([g] + low);
    assert [g] + low == [g, a / 0x1_0000, a % 0x1_0000];
  }

  lemma MappedFields(a: Address)
    ensures var s := "::ffff:" + FormatAddress(a);
            && FirstPair(s, ':') == 0 && Split(s[2..], ':') == ["ffff", FormatAddress(a)]
            && Split(s, '/') == [s] && ':' in s
  {
    var quad := FormatAddress(a);
    var s, fields := "::ffff:" + quad, ["ffff", quad];
    SplitAddress(a);
    DigitsAndDots(a, ':');
    assert s[2..] == Join(fields, ':');
    SplitJoin(fields, ':');
    SplitPlain(s, '/');
    assert s[0] == ':' && s[1] == ':';
  }

  lemma LeadingPair(s: string)
    requires |s| >= 2 && FirstPair(s, ':') == 0
    ensures ParseIPv6(s) == FillZeros(Some([]), ParseSide(s[2..], true))
  {
    assert s[..0] == "" && ParseSide("", false) == Some([]);
  }

  lemma FilledIsMapped(a: Address)
    ensures var g := FillZeros(Some([]), Some([0xFFFF, a / 0x1_0000, a % 0x1_0000]));
            g.Some? && Unmapped(g.value) == Some(a)
  {
    assert Zeros(5) == [0, 0, 0, 0, 0];
  }

  /** The usual IPv4-mapped spelling names the IPv4 address itself. */
  lemma MappedNamesAddress(a: Address)
    ensures ParseEntry("::ffff:" + FormatAddress(a)) == Some(Host(a))
  {
    MappedNames(a);
    MappedFields(a);
    MappedIsNoAddress("::ffff:" + FormatAddress(a));
  }

  /** The same for a block, whose prefix length counts from the start of the IPv6 address. */
  lemma MappedNamesBlock(a: Address, n: nat)
    requires n <= 32
    ensures ParseEntry("::ffff:" + FormatAddress(a) + "/" + Format(96 + n)) == Some(Block(a, n))
  {
    var host := "::ffff:" + FormatAddress(a);
    MappedNames(a);
    MappedFields(a);
    MappedIsNoAddress(host);
    SplitPlainHas(host, '/');
    ParseFormat(96 + n);
    MappedBlock(host, Format(96 + n), a, n);
  }

  lemma MappedBlock(host: string, text: string, a: Address, n: nat)
    requires '/' !in host && '/' !in text && ParseAddress(host).None? && ParseMapped(host) == Some(a)
    requires ParseDigits(text) == Some(96 + n) && n <= 32
    ensures ParseEntry(host + "/" + text) == Some(Block(a, n))
  {
    var p := [host, text];
    assert host + "/" + text == Join(p, '/');
    SplitJoin(p, '/');
  }

  lemma SplitPlainHas(s: string, sep: char)
    requires Split(s, sep) == [s]
    ensures sep !in s
  {
    SplitHead(s, sep);
  }

  lemma MappedNames(a: Address)
    ensures ParseMapped("::ffff:" + FormatAddress(a)) == Some(a)
  {
    var s := "::ffff:" + FormatAddress(a);
    MappedFields(a);
    AddressRoundTrip(a);
    HexFFFF();
    QuadGroups("ffff", FormatAddress(a), 0xFFFF, a);
    LeadingPair(s);
    FilledIsMapped(a);
  }

  /** A number in hexadecimal digits of either case. */
  function FormatHex(n: nat, upper: bool): (s: string)
    ensures |s| >= 1 && forall c :: c in s ==> c !in ":/."
  {
    var d := n % 16;
    var last := if d < 10 then '0' + d as char else if upper then 'A' + (d - 10) as char else 'a' + (d - 10) as char;
    if n < 16 then [last] else FormatHex(n / 16, upper) + [last]
  }

  lemma {:induction false} HexRoundTrip(n: nat, upper: bool)
    ensures ParseHex(FormatHex(n, upper)) == Some(n)
  {
    var s := FormatHex(n, upper);
    if n >= 16 {
      HexRoundTrip(n / 16, upper);
      assert s[..|s| - 1] == FormatHex(n / 16, upper);
    } else {
      assert s[..0] == "";
      assert ParseHex(s[..0]) == Some(0);
    }
  }

  lemma GroupRoundTrip(n: nat, upper: bool)
    requires n < 0x1_0000
    ensures ParseGroup(FormatHex(n, upper)) == Some(n)
  {
    HexRoundTrip(n, upper);
    assert |FormatHex(n / 16 / 16 / 16, upper)| == 1;
    assert |FormatHex(n / 16 / 16, upper)| <= 2;
    assert |FormatHex(n / 16, upper)| <= 3;
  }

  /** The address in two hexadecimal groups names it too. */
  lemma HexNamesAddress(a: Address, upper: bool)
    ensures ParseEntry("::ffff:" + FormatHex(a / 0x1_0000, upper) + ":"
              + FormatHex(a % 0x1_0000, upper)) == Some(Host(a))
  {
    var hi, lo := FormatHex(a / 0x1_0000, upper), FormatHex(a % 0x1_0000, upper);
    var fields := ["ffff", hi, lo];
    var s := "::ffff:" + hi + ":" + lo;
    HexFields(hi, lo);
    HexFFFF();
    GroupRoundTrip(a / 0x1_0000, upper);
    GroupRoundTrip(a % 0x1_0000, upper);
    SplitPlain(lo, '.');
    ThreeGroups("ffff", hi, lo, 0xFFFF, a / 0x1_0000, a % 0x1_0000);
    LeadingPair(s);
    FilledIsMapped(a);
    MappedIsNoAddress(s);
  }

  lemma HexFields(hi: string, lo: string)
    requires (forall c :: c in hi ==> c !in ":/.") && (forall c :: c in lo ==> c !in ":/.")
    ensures var s := "::ffff:" + hi + ":" + lo;
            && FirstPair(s, ':') == 0 && Split(s[2..], ':') == ["ffff", hi, lo] && Split(s, '/') == [s] && ':' in s
  {
    var s, fields := "::ffff:" + hi + ":" + lo, ["ffff", hi, lo];
    assert fields[1..] == [hi, lo] && [hi, lo][1..] == [lo];
    assert Join([hi, lo], ':') == hi + ":" + lo;
    assert Join(fields, ':') == "ffff" + ":" + (hi + ":" + lo) == s[2..];
    SplitJoin(fields, ':');
    SplitPlain(s, '/');
    assert s[0] == ':' && s[1] == ':';
  }

  lemma ThreeGroups(x: string, y: string, z: string, a: nat, b: nat, c: nat)
    requires ParseGroup(x) == Some(a) && ParseGroup(y) == Some(b) && ParseGroup(z) == Some(c)
    requires ParseAddress(z).None?
    ensures ParseGroups([x, y, z], true) == Some([a, b, c])
  {
    assert [x, y, z][1..] == [y, z] && [y, z][1..] == [z] && [z][1..] == [];
    assert ParseGroups([], true) == Some([]);
    assert ParseGroups([z], true) == Some([c] + []) && [c] + [] == [c];
    var fields, low := [y, z], [c];
    assert fields[1..] == [z] && |fields| == 2;
    assert ParseGroups(fields, true) == Some([b] + low);
    var all, rest := [x, y, z], [b] + low;
    assert all[1..] == fields && ParseGroups(all, true) == Some([a] + rest);
    assert [a] + rest == [a, b, c];
  }

  lemma HexFFFF()
    ensures ParseGroup("ffff") == Some(0xFFFF)
  {
    assert "ffff"[..3] == "fff" && "fff"[..2] == "ff" && "ff"[..1] == "f" && "f"[..0] == "";
  }

  lemma DigitsAndDots(a: Address, c: char)
    requires !Digit(c) && c != '.'
    ensures c !in FormatAddress(a)
  {
    forall i | 0 <= i < 4 ensures c !in Octets(a)[i] {}
    JoinHas(Octets(a), '.', c);
  }

  /** Text without the separator is one part. */
  lemma {:induction false} SplitPlain(s: string, sep: char)
    requires sep !in s
    ensures Split(s, sep) == [s]
  {
    SplitJoin([s], sep);
  }

  lemma MappedIsNoAddress(s: string)
    requires ':' in s
    ensures ParseAddress(s).None?
  {
    var p := Split(s, '.');
    if |p| == 4 && forall i :: 0 <= i < 4 ==> ParseOctet(p[i]).Some? {
      forall i | 0 <= i < 4 ensures ':' !in p[i] {
        assert ParseOctet(p[i]).Some?;
        NumberIsDigits(p[i]);
      }
      JoinHas(p, '.', ':');
      JoinSplit(s, '.');
      assert false;
    }
  }

  // ---------------------------------------------------------------------------------------------
  // What plain text names
  // ---------------------------------------------------------------------------------------------

  /** Dotted text is an address exactly when it is the canonical text of that address. */
  lemma DottedIsCanonical(s: string, a: Address)
    ensures ParseAddress(s) == Some(a) <==> s == FormatAddress(a)
  {
    AddressRoundTrip(a);
    if ParseAddress(s) == Some(a) {
      JoinSplit(s, '.');
      FieldsAreOctets(Split(s, '.'), a);
    }
  }

  lemma FieldsAreOctets(p: seq<string>, a: Address)
    requires |p| == 4 && forall i :: 0 <= i < 4 ==> ParseOctet(p[i]).Some?
    requires a == ((ParseOctet(p[0]).value * 256 + ParseOctet(p[1]).value) * 256 + ParseOctet(p[2]).value) * 256
                  + ParseOctet(p[3]).value
    ensures p == Octets(a)
  {
    Digits256(ParseOctet(p[0]).value, ParseOctet(p[1]).value, ParseOctet(p[2]).value, ParseOctet(p[3]).value);
    FormatParse(p[0]);
    FormatParse(p[1]);
    FormatParse(p[2]);
    FormatParse(p[3]);
  }

  lemma Digits256(w: int, x: int, y: int, z: int)
    requires 0 <= w < 256 && 0 <= x < 256 && 0 <= y < 256 && 0 <= z < 256
    ensures var a := ((w * 256 + x) * 256 + y) * 256 + z;
            a / 0x100_0000 == w && a / 0x1_0000 % 256 == x && a / 256 % 256 == y && a % 256 == z
  {
    var a := ((w * 256 + x) * 256 + y) * 256 + z;
    assert a / 256 == (w * 256 + x) * 256 + y;
    assert a / 0x1_0000 == w * 256 + x;
  }

  lemma NoBlanks(d: Dest)
    ensures Trim(FormatDest(d)) == FormatDest(d)
  {
    var s := FormatDest(d);
    forall c | Blank(c) ensures c !in s { DigitsAndDots(d.a, c); }
    if s != "" {
      assert s[0] in s && s[|s| - 1] in s;
      TrimKeeps(s);
    }
  }

  /** A policy entry that is the text of an address or a block names that address or block. */
  lemma EntryNames(d: Dest, ip: Address)
    requires d.Block? ==> d.bits <= 32
    ensures ParseEntry(FormatDest(d)) == Some(d)
    ensures EntryCovers(FormatDest(d), ip) <==> Covers(d, ip)
  {
    DestRoundTrip(d);
    NoBlanks(d);
  }

  ghost predicate Spells(entries: seq<string>, dests: seq<Dest>) {
    |entries| == |dests| && forall i :: 0 <= i < |dests| ==>
                            (dests[i].Block? ==> dests[i].bits <= 32) && entries[i] == FormatDest(dests[i])
  }

  ghost predicate CoveredBy(dests: seq<Dest>, ip: Address) { exists i :: 0 <= i < |dests| && Covers(dests[i], ip) }

  /** A list that spells destinations covers their addresses and no others. */
  lemma ListNames(entries: seq<string>, dests: seq<Dest>, ip: Address)
    requires Spells(entries, dests)
    ensures Listed(entries, ip) <==> CoveredBy(dests, ip)
  {
    forall i | 0 <= i < |dests| ensures EntryCovers(entries[i], ip) <==> Covers(dests[i], ip) {
      EntryNames(dests[i], ip);
    }
  }

  function Power(n: nat): (r: int)
    ensures r > 0
  {
    if n == 0 then 1 else 2 * Power(n - 1)
  }

  lemma {:induction false} ShiftBounds(a: int, n: nat)
    requires a >= 0
    ensures Shift(a, n) * Power(n) <= a < Shift(a, n) * Power(n) + Power(n)
  {
    if n > 0 {
      ShiftBounds(a / 2, n - 1);
      assert Shift(a, n) * Power(n) == 2 * (Shift(a / 2, n - 1) * Power(n - 1));
    }
  }

  lemma Steps(x: int, y: int, size: int)
    requires size > 0
    ensures x < y ==> x * size + size <= y * size
  {
    if x < y { assert (y - x - 1) * size >= 0; }
  }

  lemma QuotientIs(a: int, size: int, q: int)
    requires size > 0 && q * size <= a < q * size + size
    ensures a / size == q && a % size == a - q * size
  {
    var d := a / size;
    assert a == d * size + a % size;
    Steps(d, q, size);
    Steps(q, d, size);
  }

  /** In arithmetic: the block of `a` with `n` bits is the run of 2^(32-n) addresses, aligned to that
      size, that has `a` in it. */
  lemma BlockIsAlignedRun(a: Address, n: nat, ip: Address)
    requires n <= 32
    ensures var size := Power(32 - n);
            var first := a - a % size;
            && first % size == 0 && first <= a < first + size
            && (Covers(Block(a, n), ip) <==> first <= ip < first + size)
  {
    var size := Power(32 - n);
    ShiftBounds(a, 32 - n);
    ShiftBounds(ip, 32 - n);
    QuotientIs(a, size, Shift(a, 32 - n));
    QuotientIs(ip, size, Shift(ip, 32 - n));
    var first := Shift(a, 32 - n) * size;
    QuotientIs(first, size, Shift(a, 32 - n));
    if first <= ip < first + size { QuotientIs(ip, size, Shift(a, 32 - n)); }
  }
}
