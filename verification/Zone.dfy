/** Printing DNS records as a zone file, and reading a zone file back by the master-file rules of
    section 5.1 of RFC 1035: an origin, `@` for it, and names relative to it. */
module Zone {
  import opened Delimited
  import opened Options
  import opened Sorting

  const ZONE: string := "barback.internal"
  const RESOLVER: string := "dns.barback.internal"

  datatype DnsRecord = DnsRecord(name: string, address: string)

  datatype RenderError =
    | BadTtl | NoRecords | BadName(at: nat) | BadAddress(at: nat) | Duplicate(at: nat) | MissingZone | MissingResolver

  datatype Rendered = Text(text: string) | Error(error: RenderError)

  // ---------- Names and addresses ----------

  predicate LetterOrDigit(c: char) {
    'a' <= c <= 'z' || '0' <= c <= '9'
  }

  predicate Label(s: string) {
    && 1 <= |s| <= 63
    && LetterOrDigit(s[0]) && LetterOrDigit(s[|s| - 1])
    && forall i :: 0 <= i < |s| ==> LetterOrDigit(s[i]) || s[i] == '-'
  }

  /** Labels, each followed by a dot, and then the zone. */
  predicate Under(name: string, zone: string)
    decreases |name|
  {
    name == zone || exists i :: 0 <= i < |name| && name[i] == '.' && Label(name[..i]) && Under(name[i + 1..], zone)
  }

  predicate InZone(name: string) {
    Under(name, ZONE)
  }

  /** A label has one to 63 small letters, digits and hyphens, and no hyphen at either end. */
  lemma LabelIff(s: string)
    ensures Label(s) <==>
            && 0 < |s| < 64 && s[0] != '-' && s[|s| - 1] != '-'
            && forall i :: 0 <= i < |s| ==> s[i] == '-' || 'a' <= s[i] <= 'z' || '0' <= s[i] <= '9'
  {
  }

  function Number(s: string): nat
    requires forall i :: 0 <= i < |s| ==> '0' <= s[i] <= '9'
  {
    if s == [] then 0 else Number(s[..|s| - 1]) * 10 + (s[|s| - 1] - '0') as nat
  }

  predicate Octet(s: string) {
    && 1 <= |s| <= 3
    && (forall i :: 0 <= i < |s| ==> '0' <= s[i] <= '9')
    && (|s| > 1 ==> s[0] != '0')
    && Number(s) <= 255
  }

  /** Dots at `i`, `j` and `k` and octets around them. */
  predicate Dotted(s: string, i: nat, j: nat, k: nat)
    requires i < j < k < |s|
  {
    && s[i] == '.' && s[j] == '.' && s[k] == '.'
    && Octet(s[0..i]) && Octet(s[i + 1..j]) && Octet(s[j + 1..k]) && Octet(s[k + 1..|s|])
  }

  predicate IsIPv4(s: string) {
    exists i, j, k :: 0 <= i < j < k < |s| && Dotted(s, i, j, k)
  }

  predicate Fine(records: seq<DnsRecord>, i: nat)
    requires i < |records|
  {
    && InZone(records[i].name)
    && IsIPv4(records[i].address)
    && forall j :: 0 <= j < i ==> records[j].name != records[i].name
  }

  predicate Names(records: seq<DnsRecord>, name: string) {
    exists i :: 0 <= i < |records| && records[i].name == name
  }

  predicate Renderable(records: seq<DnsRecord>, ttl: int) {
    && 1 <= ttl <= 30
    && (forall i :: 0 <= i < |records| ==> Fine(records, i))
    && Names(records, ZONE)
    && Names(records, RESOLVER)
  }

  function Digit(n: int): char
    requires 0 <= n < 10
  {
    '0' + n as char
  }

  /** A number as it is written, without leading zeros. */
  function Written(n: nat): string {
    if n < 10 then [Digit(n)] else Written(n / 10) + [Digit(n % 10)]
  }

  lemma NumberOn(front: string, d: int)
    requires 0 <= d < 10 && forall i :: 0 <= i < |front| ==> '0' <= front[i] <= '9'
    ensures var s := front + [Digit(d)];
            (forall i :: 0 <= i < |s| ==> '0' <= s[i] <= '9') && Number(s) == Number(front) * 10 + d
  {
    var s := front + [Digit(d)];
    assert s[..|s| - 1] == front;
  }

  predicate Numeral(s: string) {
    s != "" && (forall i :: 0 <= i < |s| ==> '0' <= s[i] <= '9') && (|s| > 1 ==> s[0] != '0')
  }

  lemma {:induction false} WrittenReads(n: nat)
    ensures Numeral(Written(n)) && Number(Written(n)) == n && (n > 0 ==> Written(n)[0] != '0')
  {
    if n < 10 {
      NumberOn("", n);
      assert "" + [Digit(n)] == Written(n);
    } else {
      WrittenReads(n / 10);
      NumberOn(Written(n / 10), n % 10);
      hide Number;
      assert Written(n) == Written(n / 10) + [Digit(n % 10)];
    }
  }

  lemma WrittenLength(n: nat)
    requires n <= 255
    ensures 1 <= |Written(n)| <= 3
  {
    assert n / 10 / 10 < 10;
    assert n >= 10 ==> |Written(n)| == |Written(n / 10)| + 1;
    assert n / 10 >= 10 ==> |Written(n / 10)| == |Written(n / 10 / 10)| + 1;
  }

  lemma WrittenOn(n: nat, d: int)
    requires n >= 1 && 0 <= d < 10
    ensures Written(n * 10 + d) == Written(n) + [Digit(d)]
  {
    var m := n * 10 + d;
    assert m / 10 == n && m % 10 == d;
  }

  lemma LastDigit(s: string)
    requires Numeral(s)
    ensures var d := (s[|s| - 1] - '0') as int; 0 <= d < 10 && s == s[..|s| - 1] + [Digit(d)]
  {
  }

  lemma {:induction false} ReadsWritten(s: string)
    requires Numeral(s)
    ensures s == Written(Number(s)) && (|s| > 1 ==> Number(s) >= 10)
  {
    hide Number, Written, Digit;
    var front, d := s[..|s| - 1], (s[|s| - 1] - '0') as int;
    LastDigit(s);
    NumberOn(front, d);
    if front == "" {
      OneDigit(d);
    } else {
      ReadsWritten(front);
      FrontPositive(front);
      WrittenOn(Number(front), d);
    }
  }

  lemma OneDigit(d: int)
    requires 0 <= d < 10
    ensures Number("") == 0 && Written(d) == [Digit(d)] && "" + [Digit(d)] == [Digit(d)]
  {
  }

  lemma FrontPositive(front: string)
    requires Numeral(front) && front[0] != '0' && (|front| > 1 ==> Number(front) >= 10)
    ensures Number(front) >= 1
  {
    if |front| == 1 {
      assert front[..0] == "";
    }
  }

  /** The parts of an address are exactly the numbers to 255 as they are written. */
  lemma OctetIff(s: string)
    ensures Octet(s) <==> exists n: nat :: n <= 255 && s == Written(n)
  {
    if Octet(s) {
      ReadsWritten(s);
    }
    if n: nat :| n <= 255 && s == Written(n) {
      WrittenReads(n);
      WrittenLength(n);
    }
  }

  /** A name is in the zone exactly if it is labels, each followed by a dot, and then the zone. */
  lemma UnderIff(name: string, zone: string)
    ensures Under(name, zone) <==>
            exists labels: seq<string> ::
              (forall i :: 0 <= i < |labels| ==> Label(labels[i])) && name == Joined(labels + [zone], '.')
  {
    hide Label;
    if Under(name, zone) {
      var labels := LabelsOf(name, zone);
    }
    if labels: seq<string> :|
        (forall i :: 0 <= i < |labels| ==> Label(labels[i])) && name == Joined(labels + [zone], '.') {
      LabelsUnder(labels, zone);
    }
  }

  lemma {:induction false} LabelsOf(name: string, zone: string) returns (labels: seq<string>)
    requires Under(name, zone)
    ensures (forall i :: 0 <= i < |labels| ==> Label(labels[i])) && name == Joined(labels + [zone], '.')
    decreases |name|
  {
    hide Label, Joined, Under;
    labels := [];
    if name == zone {
      JoinedOne(zone);
    } else {
      var first, rest := FirstLabel(name, zone);
      var more := LabelsOf(rest, zone);
      labels := [first] + more;
      JoinedOn(first, more, zone);
    }
  }

  lemma FirstLabel(name: string, zone: string) returns (first: string, rest: string)
    requires Under(name, zone) && name != zone
    ensures Label(first) && Under(rest, zone) && name == first + ['.'] + rest && |rest| < |name|
  {
    hide Label;
    var i :| 0 <= i < |name| && name[i] == '.' && Label(name[..i]) && Under(name[i + 1..], zone);
    first, rest := name[..i], name[i + 1..];
  }

  lemma JoinedOne(zone: string)
    ensures Joined([] + [zone], '.') == zone
  {
    assert [] + [zone] == [zone];
  }

  lemma JoinedOn(first: string, rest: seq<string>, zone: string)
    ensures Joined([first] + rest + [zone], '.') == first + ['.'] + Joined(rest + [zone], '.')
  {
    assert ([first] + rest + [zone])[1..] == rest + [zone];
  }

  lemma {:induction false} LabelsUnder(labels: seq<string>, zone: string)
    requires forall i :: 0 <= i < |labels| ==> Label(labels[i])
    ensures Under(Joined(labels + [zone], '.'), zone)
  {
    hide Label, Joined;
    if labels == [] {
      JoinedOne(zone);
    } else {
      LabelsUnder(labels[1..], zone);
      var rest := Joined(labels[1..] + [zone], '.');
      var name := labels[0] + ['.'] + rest;
      JoinedOn(labels[0], labels[1..], zone);
      assert [labels[0]] + labels[1..] == labels;
      var i := |labels[0]|;
      assert name[i] == '.' && name[..i] == labels[0] && name[i + 1..] == rest;
    }
  }

  /** Four of them with dots between make an address. */
  lemma QuadIsAddress(a: string, b: string, c: string, d: string)
    requires Octet(a) && Octet(b) && Octet(c) && Octet(d)
    ensures IsIPv4(a + "." + b + "." + c + "." + d)
  {
    var s := a + "." + b + "." + c + "." + d;
    var i := |a|;
    var j := i + 1 + |b|;
    var k := j + 1 + |c|;
    hide Octet;
    assert s[0..i] == a;
    assert s[i + 1..j] == b;
    assert s[j + 1..k] == c;
    assert s[k + 1..|s|] == d;
    assert Dotted(s, i, j, k);
  }

  /** And nothing else does. */
  lemma AddressIsQuad(s: string) returns (a: string, b: string, c: string, d: string)
    requires IsIPv4(s)
    ensures Octet(a) && Octet(b) && Octet(c) && Octet(d) && s == a + "." + b + "." + c + "." + d
  {
    hide Octet;
    var i, j, k :| 0 <= i < j < k < |s| && Dotted(s, i, j, k);
    a, b, c, d := s[0..i], s[i + 1..j], s[j + 1..k], s[k + 1..|s|];
  }

  // ---------- Printing ----------

  /** The name as the file lists it: `@`, or what stands before the dot and the zone. */
  function Owner(name: string): string {
    if name == ZONE then "@" else if |name| < 17 then "" else name[..|name| - 17]
  }

  function Words(words: seq<string>): string {
    Joined(words, ' ')
  }

  function RecordLine(r: DnsRecord): string {
    Words([Owner(r.name), "IN", "A", r.address])
  }

  function OriginLine(): string {
    Words(["$ORIGIN", ZONE + "."])
  }

  function TtlLine(ttl: int): string
    requires 1 <= ttl <= 30
  {
    Words(["$TTL", Written(ttl)])
  }

  /** The mailbox, and then the serial number and the refresh, retry, expiry and minimum times. */
  function Soa(): seq<string> {
    ["hostmaster." + ZONE + ".", "1", "60", "30", "300", "5"]
  }

  function SoaLine(): string {
    Words(["@", "IN", "SOA", RESOLVER + "."] + Soa())
  }

  function NsLine(): string {
    Words(["@", "IN", "NS", RESOLVER + "."])
  }

  function RecordLines(records: seq<DnsRecord>): seq<string> {
    seq(|records|, i requires 0 <= i < |records| => RecordLine(records[i]))
  }

  function ByName(rank: string -> real): DnsRecord -> real {
    (r: DnsRecord) => rank(r.name)
  }

  function Header(ttl: int): seq<string>
    requires 1 <= ttl <= 30
  {
    [OriginLine(), TtlLine(ttl), SoaLine(), NsLine()]
  }

  function RenderText(records: seq<DnsRecord>, ttl: int, rank: string -> real): string
    requires 1 <= ttl <= 30
  {
    Joined(Header(ttl) + RecordLines(Sort(records, ByName(rank))) + [""], '\n')
  }

  /** Validates record by record, keeping the names seen, and then prints. */
  method RenderDnsRecords(records: seq<DnsRecord>, ttl: int, rank: string -> real) returns (r: Rendered)
    ensures r.Text? <==> Renderable(records, ttl)
    ensures r.Text? ==> r.text == RenderText(records, ttl, rank)
    ensures r.Error? ==>
      match r.error
      case BadTtl => !(1 <= ttl <= 30)
      case NoRecords => records == []
      case BadName(i) => i < |records| && !InZone(records[i].name) && forall j :: 0 <= j < i ==> Fine(records, j)
      case BadAddress(i) =>
        && i < |records| && InZone(records[i].name) && !IsIPv4(records[i].address)
        && forall j :: 0 <= j < i ==> Fine(records, j)
      case Duplicate(i) =>
        i < |records| && Names(records[..i], records[i].name) && forall j :: 0 <= j < i ==> Fine(records, j)
      case MissingZone => !Names(records, ZONE)
      case MissingResolver => !Names(records, RESOLVER)
  {
    if !(1 <= ttl <= 30) {
      return Error(BadTtl);
    }
    if records == [] {
      return Error(NoRecords);
    }
    var names: set<string> := {};
    var i := 0;
    while i < |records|
      invariant 0 <= i <= |records|
      invariant forall j :: 0 <= j < i ==> Fine(records, j)
      invariant forall name :: name in names <==> Names(records[..i], name)
    {
      var record := records[i];
      if !InZone(record.name) {
        assert !Fine(records, i);
        return Error(BadName(i));
      }
      if !IsIPv4(record.address) {
        assert !Fine(records, i);
        return Error(BadAddress(i));
      }
      if record.name in names {
        var j :| 0 <= j < |records[..i]| && records[..i][j].name == record.name;
        assert records[j].name == record.name;
        assert !Fine(records, i);
        return Error(Duplicate(i));
      }
      assert forall j :: 0 <= j < i ==> records[..i][j] == records[j];
      names := names + {record.name};
      i := i + 1;
      SeenNames(records, i);
    }
    assert records[..|records|] == records;
    if ZONE !in names {
      return Error(MissingZone);
    }
    if RESOLVER !in names {
      return Error(MissingResolver);
    }
    return Text(RenderText(records, ttl, rank));
  }

  lemma SeenNames(records: seq<DnsRecord>, i: nat)
    requires 0 < i <= |records|
    ensures forall name :: Names(records[..i], name) <==> Names(records[..i - 1], name) || name == records[i - 1].name
  {
    forall name
      ensures Names(records[..i], name) <==> Names(records[..i - 1], name) || name == records[i - 1].name
    {
      assert records[..i][i - 1] == records[i - 1];
      assert forall j :: 0 <= j < i - 1 ==> records[..i][j] == records[..i - 1][j];
    }
  }

  // ---------- Reading ----------

  /** What a zone file says: its origin, its default TTL, its primary and its name servers, and its
      addresses, all by absolute name. */
  datatype ZoneFile = ZoneFile(origin: string, ttl: string, primary: string, soa: seq<string>,
                               servers: set<string>, addresses: set<(string, string)>)

  const BLANK := ZoneFile("", "", "", [], {}, {})

  /** A name without a final dot is relative to the origin. */
  function Absolute(name: string, origin: string): string {
    if name == "@" then origin
    else if name != "" && name[|name| - 1] == '.' then name
    else name + "." + origin
  }

  function ReadLine(z: ZoneFile, line: string): Option<ZoneFile> {
    var t := Split(line, ' ');
    if line == "" then Some(z)
    else if |t| == 2 && t[0] == "$ORIGIN" then Some(z.(origin := t[1]))
    else if |t| == 2 && t[0] == "$TTL" then Some(z.(ttl := t[1]))
    else if |t| == 4 && t[1] == "IN" && t[2] == "A" then
      Some(z.(addresses := z.addresses + {(Absolute(t[0], z.origin), t[3])}))
    else if |t| == 10 && t[1] == "IN" && t[2] == "SOA" then Some(z.(primary := Absolute(t[3], z.origin), soa := t[4..]))
    else if |t| == 4 && t[1] == "IN" && t[2] == "NS" then Some(z.(servers := z.servers + {Absolute(t[3], z.origin)}))
    else None
  }

  function ReadLines(z: ZoneFile, lines: seq<string>): Option<ZoneFile>
    decreases |lines|
  {
    if lines == [] then Some(z)
    else
      var next := ReadLine(z, lines[0]);
      if next.None? then None else ReadLines(next.value, lines[1..])
  }

  function ReadZone(text: string): Option<ZoneFile> {
    ReadLines(BLANK, Split(text, '\n'))
  }

  // ---------- Names and addresses in a line ----------

  predicate NameChar(c: char) {
    LetterOrDigit(c) || c == '-' || c == '.'
  }

  predicate Plain(s: string) {
    forall i :: 0 <= i < |s| ==> NameChar(s[i])
  }

  lemma PlainFree(s: string)
    requires Plain(s)
    ensures Free(s, ' ') && Free(s, '\n') && Free(s, '$') && Free(s, '@')
  {
  }

  /** The name stands in the zone: it is `owner`, not ending in a dot, before a dot and the zone. */
  predicate Hangs(name: string, owner: string, zone: string) {
    owner != "" && owner[|owner| - 1] != '.' && name == owner + ['.'] + zone
  }

  lemma HangsCut(name: string, owner: string, zone: string)
    requires Hangs(name, owner, zone)
    ensures |name| > |zone| + 1 && name[..|name| - |zone| - 1] == owner
  {
  }

  lemma HangsUnder(front: string, rest: string, owner: string, zone: string)
    requires Hangs(rest, owner, zone)
    ensures Hangs(front + ['.'] + rest, front + ['.'] + owner, zone)
  {
    assert front + ['.'] + (owner + ['.'] + zone) == front + ['.'] + owner + ['.'] + zone;
  }

  lemma PlainAround(front: string, rest: string)
    requires Plain(front) && Plain(rest)
    ensures Plain(front + ['.'] + rest)
  {
  }

  lemma LabelPlain(s: string)
    requires Label(s)
    ensures s != "" && Plain(s) && s[|s| - 1] != '.'
  {
  }

  lemma HangsLabel(front: string, zone: string)
    requires front != "" && front[|front| - 1] != '.'
    ensures Hangs(front + ['.'] + zone, front, zone)
  {
  }

  lemma UnderLabel(front: string, rest: string, under: string, zone: string) returns (owner: string)
    requires Label(front) && Plain(rest) && (rest == zone || Hangs(rest, under, zone))
    ensures Plain(front + ['.'] + rest) && Hangs(front + ['.'] + rest, owner, zone)
  {
    LabelPlain(front);
    PlainAround(front, rest);
    hide Plain, Hangs, Label;
    if rest == zone {
      HangsLabel(front, zone);
      owner := front;
    } else {
      HangsUnder(front, rest, under, zone);
      owner := front + ['.'] + under;
    }
  }

  /** A name under a zone is plain, and is the zone or hangs under it. */
  lemma {:induction false} UnderShape(name: string, zone: string) returns (owner: string)
    requires Under(name, zone) && Plain(zone)
    ensures Plain(name) && (name == zone || Hangs(name, owner, zone))
    decreases |name|
  {
    hide Plain, Hangs, Label;
    owner := "";
    if name != zone {
      var i :| 0 <= i < |name| && name[i] == '.' && Label(name[..i]) && Under(name[i + 1..], zone);
      assert name == name[..i] + ['.'] + name[i + 1..];
      var under := UnderShape(name[i + 1..], zone);
      owner := UnderLabel(name[..i], name[i + 1..], under, zone);
    }
  }

  lemma ZonePlain()
    ensures |ZONE| == 16 && Plain(ZONE) && Plain(RESOLVER)
  {
  }

  lemma OwnerReads(name: string)
    requires InZone(name)
    ensures Absolute(Owner(name), ZONE + ".") == name + "."
    ensures Free(Owner(name), ' ') && Free(Owner(name), '\n') && Free(Owner(name), '$')
  {
    ZonePlain();
    var owner := UnderShape(name, ZONE);
    PlainFree(name);
    if name != ZONE {
      HangsCut(name, owner, ZONE);
      assert Owner(name) == owner && owner[0] == name[0];
      assert owner + "." + (ZONE + ".") == (owner + ['.'] + ZONE) + ".";
    }
  }

  lemma OctetPlain(s: string, lo: int, hi: int)
    requires 0 <= lo <= hi <= |s| && Octet(s[lo..hi])
    ensures forall x :: lo <= x < hi ==> NameChar(s[x])
  {
    hide Number;
    forall x | lo <= x < hi
      ensures NameChar(s[x])
    {
      assert s[x] == s[lo..hi][x - lo];
    }
  }

  lemma AddressShape(s: string)
    requires IsIPv4(s)
    ensures Plain(s)
  {
    hide Octet;
    var i, j, k :| 0 <= i < j < k < |s| && Dotted(s, i, j, k);
    OctetPlain(s, 0, i);
    OctetPlain(s, i + 1, j);
    OctetPlain(s, j + 1, k);
    OctetPlain(s, k + 1, |s|);
  }

  lemma SplitRecordLine(r: DnsRecord)
    requires InZone(r.name) && IsIPv4(r.address)
    ensures Split(RecordLine(r), ' ') == [Owner(r.name), "IN", "A", r.address]
    ensures Free(RecordLine(r), '\n')
  {
    OwnerReads(r.name);
    AddressShape(r.address);
    PlainFree(r.address);
    hide InZone, IsIPv4, Owner;
    var words := [Owner(r.name), "IN", "A", r.address];
    SplitJoined(words, ' ');
    JoinedFree(words, ' ', '\n');
  }

  lemma ReadRecordLine(z: ZoneFile, r: DnsRecord)
    requires InZone(r.name) && IsIPv4(r.address) && z.origin == ZONE + "."
    ensures ReadLine(z, RecordLine(r)) == Some(z.(addresses := z.addresses + {(r.name + ".", r.address)}))
  {
    SplitRecordLine(r);
    OwnerReads(r.name);
    hide InZone, IsIPv4, Owner, Absolute, RecordLine;
  }

  // ---------- The round trip ----------

  ghost function Pairs(records: seq<DnsRecord>): set<(string, string)> {
    set r | r in records :: (r.name + ".", r.address)
  }

  ghost predicate AllFine(records: seq<DnsRecord>) {
    forall r :: r in records ==> InZone(r.name) && IsIPv4(r.address)
  }

  lemma {:induction false} ReadRecordLines(z: ZoneFile, records: seq<DnsRecord>)
    requires AllFine(records) && z.origin == ZONE + "."
    ensures ReadLines(z, RecordLines(records) + [""]) == Some(z.(addresses := z.addresses + Pairs(records)))
    decreases |records|
  {
    hide InZone, IsIPv4, RecordLine;
    var lines := RecordLines(records) + [""];
    if records == [] {
      assert lines == [""];
      assert ReadLines(z, lines[1..]) == Some(z);
      assert z.addresses + Pairs(records) == z.addresses;
    } else {
      hide ReadLine;
      var r := records[0];
      var z' := z.(addresses := z.addresses + {(r.name + ".", r.address)});
      ReadRecordLine(z, r);
      assert lines[0] == RecordLine(r) && lines[1..] == RecordLines(records[1..]) + [""];
      ReadRecordLines(z', records[1..]);
      assert records == [r] + records[1..];
      assert z.addresses + Pairs(records) == z'.addresses + Pairs(records[1..]);
    }
  }

  lemma SplitOrigin()
    ensures Split(OriginLine(), ' ') == ["$ORIGIN", ZONE + "."] && Free(OriginLine(), '\n')
  {
    ZonePlain();
    PlainFree(ZONE);
    var words := ["$ORIGIN", ZONE + "."];
    SplitJoined(words, ' ');
    JoinedFree(words, ' ', '\n');
  }

  lemma SplitTtl(ttl: int)
    requires 1 <= ttl <= 30
    ensures Split(TtlLine(ttl), ' ') == ["$TTL", Written(ttl)] && Free(TtlLine(ttl), '\n')
  {
    WrittenReads(ttl);
    var words := ["$TTL", Written(ttl)];
    SplitJoined(words, ' ');
    JoinedFree(words, ' ', '\n');
  }

  lemma SoaFree(c: char)
    requires c == ' ' || c == '\n'
    ensures AllFree(Soa(), c) && AllFree(["@", "IN", "SOA", RESOLVER + "."], c)
  {
    ZonePlain();
    PlainFree(ZONE);
    PlainFree(RESOLVER);
    assert Free("hostmaster.", c);
  }

  lemma SplitSoa()
    ensures Split(SoaLine(), ' ') == ["@", "IN", "SOA", RESOLVER + "."] + Soa()
    ensures Free(SoaLine(), '\n')
  {
    SoaFree(' ');
    SoaFree('\n');
    hide Free, Soa;
    var words := ["@", "IN", "SOA", RESOLVER + "."] + Soa();
    SplitJoined(words, ' ');
    JoinedFree(words, ' ', '\n');
  }

  lemma SplitNs()
    ensures Split(NsLine(), ' ') == ["@", "IN", "NS", RESOLVER + "."] && Free(NsLine(), '\n')
  {
    ZonePlain();
    PlainFree(RESOLVER);
    var words := ["@", "IN", "NS", RESOLVER + "."];
    SplitJoined(words, ' ');
    JoinedFree(words, ' ', '\n');
  }

  lemma ResolverAbsolute(origin: string)
    ensures Absolute(RESOLVER + ".", origin) == RESOLVER + "."
  {
    assert |RESOLVER + "."| > 1;
  }

  lemma ReadDirectives(ttl: int, z: ZoneFile)
    requires 1 <= ttl <= 30
    ensures ReadLine(z, OriginLine()) == Some(z.(origin := ZONE + "."))
    ensures ReadLine(z, TtlLine(ttl)) == Some(z.(ttl := Written(ttl)))
  {
    SplitOrigin();
    SplitTtl(ttl);
    hide OriginLine, TtlLine, Written, Absolute;
  }

  lemma ReadAuthority(z: ZoneFile)
    ensures ReadLine(z, SoaLine()) == Some(z.(primary := RESOLVER + ".", soa := Soa()))
    ensures ReadLine(z, NsLine()) == Some(z.(servers := z.servers + {RESOLVER + "."}))
  {
    SplitSoa();
    SplitNs();
    ResolverAbsolute(z.origin);
    hide SoaLine, NsLine, Absolute;
  }

  lemma {:induction false} ReadOn(z: ZoneFile, line: string, more: seq<string>, z': ZoneFile)
    requires ReadLine(z, line) == Some(z')
    ensures ReadLines(z, [line] + more) == ReadLines(z', more)
  {
    assert ([line] + more)[1..] == more;
  }

  /** What the file says before its addresses. */
  function HeaderSays(ttl: int): ZoneFile
    requires 1 <= ttl <= 30
  {
    ZoneFile(ZONE + ".", Written(ttl), RESOLVER + ".", Soa(), {RESOLVER + "."}, {})
  }

  lemma ReadHeader(ttl: int, more: seq<string>)
    requires 1 <= ttl <= 30
    ensures ReadLines(BLANK, Header(ttl) + more) == ReadLines(HeaderSays(ttl), more)
  {
    hide ReadLine, ReadLines, OriginLine, TtlLine, SoaLine, NsLine, Written;
    var a, b, c, d := OriginLine(), TtlLine(ttl), SoaLine(), NsLine();
    var z1 := BLANK.(origin := ZONE + ".");
    var z2 := z1.(ttl := Written(ttl));
    var z3 := z2.(primary := RESOLVER + ".", soa := Soa());
    ReadDirectives(ttl, BLANK);
    ReadDirectives(ttl, z1);
    ReadAuthority(z2);
    ReadAuthority(z3);
    ReadOn(BLANK, a, [b] + ([c] + ([d] + more)), z1);
    ReadOn(z1, b, [c] + ([d] + more), z2);
    ReadOn(z2, c, [d] + more, z3);
    assert {} + {RESOLVER + "."} == {RESOLVER + "."};
    ReadOn(z3, d, more, HeaderSays(ttl));
    assert Header(ttl) + more == [a] + ([b] + ([c] + ([d] + more)));
  }

  lemma AllRecordsFine(records: seq<DnsRecord>, ttl: int)
    requires Renderable(records, ttl)
    ensures AllFine(records)
  {
    forall r | r in records
      ensures InZone(r.name) && IsIPv4(r.address)
    {
      var i :| 0 <= i < |records| && records[i] == r;
      assert Fine(records, i);
    }
  }

  predicate AllFree(lines: seq<string>, c: char) {
    forall i :: 0 <= i < |lines| ==> Free(lines[i], c)
  }

  lemma RecordLinesFree(records: seq<DnsRecord>)
    requires AllFine(records)
    ensures AllFree(RecordLines(records) + [""], '\n')
  {
    hide RecordLine, InZone, IsIPv4, Split;
    forall i | 0 <= i < |records|
      ensures Free(RecordLine(records[i]), '\n')
    {
      SplitRecordLine(records[i]);
    }
    hide Free;
    assert Free("", '\n');
  }

  lemma AllFreeJoin(a: seq<string>, b: seq<string>, c: char)
    requires AllFree(a, c) && AllFree(b, c)
    ensures AllFree(a + b, c)
  {
    hide Free;
  }

  lemma HeaderFree(ttl: int)
    requires 1 <= ttl <= 30
    ensures AllFree(Header(ttl), '\n')
  {
    hide OriginLine, TtlLine, SoaLine, NsLine, Split, Free, Written;
    SplitOrigin();
    SplitTtl(ttl);
    SplitSoa();
    SplitNs();
    AllFreeJoin([OriginLine()], [TtlLine(ttl)], '\n');
    AllFreeJoin([OriginLine()] + [TtlLine(ttl)], [SoaLine()], '\n');
    AllFreeJoin([OriginLine()] + [TtlLine(ttl)] + [SoaLine()], [NsLine()], '\n');
    assert Header(ttl) == [OriginLine()] + [TtlLine(ttl)] + [SoaLine()] + [NsLine()];
  }

  /** Reading the printed zone gives back exactly the records, under the zone's origin and TTL, and
      the name server it names has an address in it. */
  lemma ReadRendered(records: seq<DnsRecord>, ttl: int, rank: string -> real)
    requires Renderable(records, ttl)
    ensures ReadZone(RenderText(records, ttl, rank)) == Some(HeaderSays(ttl).(addresses := Pairs(records)))
    ensures exists address :: (RESOLVER + ".", address) in Pairs(records)
  {
    AllRecordsFine(records, ttl);
    SortMembers(records, ByName(rank));
    assert Names(records, RESOLVER);
    hide Names;
    hide Renderable, Fine, InZone, IsIPv4, Header, RecordLines, ReadLines, Split, Sort, Free, Written;
    var sorted := Sort(records, ByName(rank));
    var body := RecordLines(sorted) + [""];
    assert Header(ttl) + RecordLines(sorted) + [""] == Header(ttl) + body;
    HeaderFree(ttl);
    RecordLinesFree(sorted);
    AllFreeJoin(Header(ttl), body, '\n');
    SplitJoined(Header(ttl) + body, '\n');
    ReadHeader(ttl, body);
    ReadRecordLines(HeaderSays(ttl), sorted);
    SamePairs(sorted, records);
    ResolverHasAddress(records);
  }

  lemma ResolverHasAddress(records: seq<DnsRecord>)
    requires Names(records, RESOLVER)
    ensures exists address :: (RESOLVER + ".", address) in Pairs(records)
  {
    var i :| 0 <= i < |records| && records[i].name == RESOLVER;
    assert records[i] in records;
    assert (records[i].name + ".", records[i].address) in Pairs(records);
  }

  lemma SamePairs(a: seq<DnsRecord>, b: seq<DnsRecord>)
    requires forall r :: r in a <==> r in b
    ensures Pairs(a) == Pairs(b) && ({} + Pairs(a)) == Pairs(b)
  {
  }

  // ---------- One text for one record set ----------

  lemma RecordsDistinct(records: seq<DnsRecord>, ttl: int)
    requires Renderable(records, ttl)
    ensures Distinct(records)
  {
    forall i, j | 0 <= i < j < |records|
      ensures records[i] != records[j]
    {
      assert Fine(records, j);
    }
  }

  lemma PairsMembers(a: seq<DnsRecord>, b: seq<DnsRecord>)
    requires Pairs(a) == Pairs(b)
    ensures forall r :: r in a ==> r in b
  {
    forall r | r in a
      ensures r in b
    {
      assert (r.name + ".", r.address) in Pairs(b);
      var s :| s in b && (s.name + ".", s.address) == (r.name + ".", r.address);
      assert s.name == (s.name + ".")[..|s.name|] && r.name == (r.name + ".")[..|r.name|];
    }
  }

  /** No two names of the set compare equal. */
  ghost predicate NamesApart(records: seq<DnsRecord>, rank: string -> real) {
    forall r, s :: r in records && s in records && rank(r.name) == rank(s.name) ==> r.name == s.name
  }

  /** The text changes exactly when the record set or the TTL does, so comparing texts finds
      exactly the real changes, however the records are listed. */
  lemma TextDetectsChange(a: seq<DnsRecord>, ttl: int, b: seq<DnsRecord>, ttl': int, rank: string -> real)
    requires Renderable(a, ttl) && Renderable(b, ttl') && NamesApart(a, rank)
    ensures RenderText(a, ttl, rank) == RenderText(b, ttl', rank) <==>
            ttl == ttl' && (forall r :: r in a <==> r in b)
  {
    if RenderText(a, ttl, rank) == RenderText(b, ttl', rank) {
      ReadRendered(a, ttl, rank);
      ReadRendered(b, ttl', rank);
      WrittenReads(ttl);
      WrittenReads(ttl');
      PairsMembers(a, b);
      PairsMembers(b, a);
    }
    if forall r :: r in a <==> r in b {
      RecordsDistinct(a, ttl);
      RecordsDistinct(b, ttl');
      SameMembers(a, b);
      OneName(a, ttl);
      SortCanonical(a, b, ByName(rank));
    }
  }

  lemma OneName(records: seq<DnsRecord>, ttl: int)
    requires Renderable(records, ttl)
    ensures forall r, s :: r in records && s in records && r.name == s.name ==> r == s
  {
    forall r, s | r in records && s in records && r.name == s.name
      ensures r == s
    {
      var i :| 0 <= i < |records| && records[i] == r;
      var j :| 0 <= j < |records| && records[j] == s;
      assert Fine(records, i) && Fine(records, j);
    }
  }
}
