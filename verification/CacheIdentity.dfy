/** The canonical text of a request, and when two requests share one exact-cache entry. */
module CacheIdentity {
  import opened JsonText
  import opened Options
  import opened Sorting

  const CR: CodeUnit := 13
  const LF: CodeUnit := 10

  /** What the language runtime supplies: NFC normalisation, and the order of `localeCompare`
      as a rank, so that two strings it reports equal have one rank. */
  datatype Host = Host(nfc: Text -> Text, rank: Text -> real)

  // ---------- Canonical form ----------

  /** Every CR LF becomes LF. */
  function JoinLines(s: Text): Text {
    if s == [] then []
    else if |s| >= 2 && s[0] == CR && s[1] == LF then [LF] + JoinLines(s[2..])
    else [s[0]] + JoinLines(s[1..])
  }

  /** Every CR becomes LF. */
  function ReplaceCr(s: Text): Text {
    if s == [] then [] else [if s[0] == CR then LF else s[0]] + ReplaceCr(s[1..])
  }

  function CanonicalString(h: Host, s: Text): Text {
    h.nfc(ReplaceCr(JoinLines(s)))
  }

  // ---------- Lines ----------

  /** The lines of a text, each but the last ended by CR LF, by CR or by LF. */
  function Lines(s: Text): (lines: seq<Text>)
    ensures lines != []
  {
    if s == [] then [[]]
    else if |s| >= 2 && s[0] == CR && s[1] == LF then [[]] + Lines(s[2..])
    else if s[0] == CR || s[0] == LF then [[]] + Lines(s[1..])
    else
      var rest := Lines(s[1..]);
      [[s[0]] + rest[0]] + rest[1..]
  }

  function WithLf(lines: seq<Text>): Text
    requires lines != []
  {
    if |lines| == 1 then lines[0] else lines[0] + [LF] + WithLf(lines[1..])
  }

  lemma {:induction false} WithLfFirst(unit: CodeUnit, lines: seq<Text>)
    requires lines != []
    ensures WithLf([[unit] + lines[0]] + lines[1..]) == [unit] + WithLf(lines)
  {
    var longer := [[unit] + lines[0]] + lines[1..];
    assert longer[1..] == lines[1..];
    if |lines| > 1 {
      assert [unit] + lines[0] + [LF] + WithLf(lines[1..]) == [unit] + (lines[0] + [LF] + WithLf(lines[1..]));
    }
  }

  lemma WithLfEmpty(lines: seq<Text>)
    requires lines != []
    ensures WithLf([[]] + lines) == [LF] + WithLf(lines)
  {
    assert ([[]] + lines)[1..] == lines;
    assert [] + [LF] == [LF];
  }

  /** Canonicalising line ends keeps every line and ends it with LF, however it ended before. */
  lemma {:induction false} LineEnds(s: Text)
    ensures ReplaceCr(JoinLines(s)) == WithLf(Lines(s))
  {
    if s != [] {
      if |s| >= 2 && s[0] == CR && s[1] == LF {
        LineEnds(s[2..]);
        ReplaceFirst(LF, JoinLines(s[2..]));
        WithLfEmpty(Lines(s[2..]));
      } else {
        LineEnds(s[1..]);
        ReplaceFirst(s[0], JoinLines(s[1..]));
        if s[0] == CR || s[0] == LF {
          WithLfEmpty(Lines(s[1..]));
        } else {
          WithLfFirst(s[0], Lines(s[1..]));
        }
      }
    }
  }

  lemma ReplaceFirst(unit: CodeUnit, rest: Text)
    ensures ReplaceCr([unit] + rest) == [if unit == CR then LF else unit] + ReplaceCr(rest)
  {
    assert ([unit] + rest)[1..] == rest;
  }

  predicate Ending(end: Text) {
    end == [CR, LF] || end == [CR] || end == [LF]
  }

  lemma EndOn(end: Text, rest: Text)
    requires Ending(end) && !(end == [CR] && rest != [] && rest[0] == LF)
    ensures Lines(end + rest) == [[]] + Lines(rest)
  {
    assert (end + rest)[|end|..] == rest;
  }

  /** A line and what follows its end are read one by one, whichever end it has; nothing is lost. */
  lemma {:induction false} LinesOn(line: Text, end: Text, rest: Text)
    requires CR !in line && LF !in line && Ending(end) && !(end == [CR] && rest != [] && rest[0] == LF)
    ensures Lines(line + (end + rest)) == [line] + Lines(rest)
    ensures Lines(line) == [line]
  {
    EndOn(end, rest);
    hide Ending;
    if line == [] {
      assert line + (end + rest) == end + rest;
    } else {
      LinesOn(line[1..], end, rest);
      assert (line + (end + rest))[1..] == line[1..] + (end + rest);
      assert line == [line[0]] + line[1..];
    }
  }

  lemma {:induction false} LinesAreLines(s: Text)
    ensures forall i :: 0 <= i < |Lines(s)| ==> CR !in Lines(s)[i] && LF !in Lines(s)[i]
  {
    if s != [] {
      if |s| >= 2 && s[0] == CR && s[1] == LF {
        LinesAreLines(s[2..]);
      } else {
        LinesAreLines(s[1..]);
      }
    }
  }

  lemma {:induction false} WithLfReads(lines: seq<Text>)
    requires lines != [] && forall i :: 0 <= i < |lines| ==> CR !in lines[i] && LF !in lines[i]
    ensures Lines(WithLf(lines)) == lines
  {
    if |lines| == 1 {
      LinesOn(lines[0], [LF], []);
    } else {
      WithLfReads(lines[1..]);
      LinesOn(lines[0], [LF], WithLf(lines[1..]));
      assert lines[0] + [LF] + WithLf(lines[1..]) == lines[0] + ([LF] + WithLf(lines[1..]));
    }
  }

  /** Two texts are the same up to their line ends exactly when they have the same lines. */
  lemma LineEndsIff(s: Text, t: Text)
    ensures ReplaceCr(JoinLines(s)) == ReplaceCr(JoinLines(t)) <==> Lines(s) == Lines(t)
  {
    LineEnds(s);
    LineEnds(t);
    LinesAreLines(s);
    LinesAreLines(t);
    WithLfReads(Lines(s));
    WithLfReads(Lines(t));
  }

  /** What a string says: its lines ended by LF, in normal form. */
  function Meaning(h: Host, s: Text): Text {
    h.nfc(WithLf(Lines(s)))
  }

  lemma CanonicalIsMeaning(h: Host, s: Text)
    ensures CanonicalString(h, s) == Meaning(h, s)
  {
    LineEnds(s);
  }

  // ---------- Canonical values ----------

  predicate Digits(key: Text) {
    key != [] && forall i :: 0 <= i < |key| ==> 48 <= key[i] <= 57
  }

  /** Digits, without leading zeros. */
  predicate NumberKey(key: Text) {
    Digits(key) && (key[0] != 48 || |key| == 1)
  }

  function Decimal(key: Text): nat
    requires forall i :: 0 <= i < |key| ==> 48 <= key[i] <= 57
  {
    if key == [] then 0 else Decimal(key[..|key| - 1]) * 10 + (key[|key| - 1] - 48) as int
  }

  const INDEX_LIMIT: nat := 0xFFFF_FFFF

  /** Where an object lists a key: array indices first, in numeric order, then all other keys. */
  function Slot(key: Text): real {
    if NumberKey(key) && Decimal(key) < INDEX_LIMIT
    then Decimal(key) as real
    else INDEX_LIMIT as real
  }

  function FieldSlot(): Field -> real {
    (f: Field) => Slot(f.key)
  }

  function FieldRank(h: Host): Field -> real {
    (f: Field) => h.rank(f.key)
  }

  /** The order in which an object built from entries sorted by rank lists them. */
  function Order(h: Host, fields: seq<Field>): seq<Field> {
    Sort2(fields, FieldSlot(), FieldRank(h))
  }

  function Canonicalize(h: Host, v: Json): Json
    decreases v
  {
    match v
    case String(s) => String(CanonicalString(h, s))
    case Array(items) => Array(CanonicalItems(h, items))
    case Object(fields) => Object(Order(h, CanonicalFields(h, fields)))
    case _ => v
  }

  function CanonicalItems(h: Host, items: seq<Json>): (r: seq<Json>)
    ensures |r| == |items|
    ensures forall i :: 0 <= i < |items| ==> r[i] == Canonicalize(h, items[i])
    decreases items
  {
    if items == [] then [] else [Canonicalize(h, items[0])] + CanonicalItems(h, items[1..])
  }

  /** Sorting looks at keys only, so mapping the entries before or after sorting is the same. */
  function CanonicalFields(h: Host, fields: seq<Field>): (r: seq<Field>)
    ensures |r| == |fields|
    ensures forall i :: 0 <= i < |fields| ==> r[i] == Field(fields[i].key, Canonicalize(h, fields[i].value))
    decreases fields
  {
    if fields == [] then []
    else [CanonicalField(h, fields[0])] + CanonicalFields(h, fields[1..])
  }

  function CanonicalField(h: Host, f: Field): Field
    decreases f
  {
    Field(f.key, Canonicalize(h, f.value))
  }

  function StableJson(h: Host, v: Json): Text {
    Print(Canonicalize(h, v))
  }

  // ---------- The order of entries ----------

  function DecimalText(n: nat): Text {
    if n < 10 then [48 + n as CodeUnit] else DecimalText(n / 10) + [48 + (n % 10) as CodeUnit]
  }

  lemma DecimalOn(front: Text, d: nat)
    requires d < 10 && forall i :: 0 <= i < |front| ==> 48 <= front[i] <= 57
    ensures var key := front + [48 + d as CodeUnit];
            Digits(key) && Decimal(key) == Decimal(front) * 10 + d
  {
    var key := front + [48 + d as CodeUnit];
    assert key[..|key| - 1] == front;
  }

  lemma NumberKeyOn(front: Text, d: nat)
    requires d < 10 && (front == [] || (NumberKey(front) && front[0] != 48))
    ensures var key := front + [48 + d as CodeUnit];
            NumberKey(key) && Decimal(key) == Decimal(front) * 10 + d
  {
    DecimalOn(front, d);
  }

  /** The text of a number is a numeral, and reads as the number. */
  lemma {:induction false} DecimalReads(n: nat)
    ensures var key := DecimalText(n); NumberKey(key) && Decimal(key) == n && (n > 0 ==> key[0] != 48)
  {
    if n < 10 {
      OneUnit(n);
      hide Decimal;
      NumberKeyOn([], n);
    } else {
      hide Decimal, NumberKey;
      DecimalReads(n / 10);
      NumberKeyOn(DecimalText(n / 10), n % 10);
    }
  }

  lemma DecimalTextOn(n: nat, d: nat)
    requires n >= 1 && d < 10
    ensures DecimalText(n * 10 + d) == DecimalText(n) + [48 + d as CodeUnit]
  {
    var m := n * 10 + d;
    assert m / 10 == n && m % 10 == d;
  }

  lemma LastUnit(key: Text) returns (front: Text, d: nat)
    requires NumberKey(key)
    ensures d < 10 && key == front + [48 + d as CodeUnit]
    ensures (forall i :: 0 <= i < |front| ==> 48 <= front[i] <= 57) && Decimal(key) == Decimal(front) * 10 + d
    ensures if front == [] then key[0] != 48 ==> d >= 1 else NumberKey(front) && front[0] != 48
  {
    front, d := key[..|key| - 1], (key[|key| - 1] - 48) as nat;
    DecimalOn(front, d);
  }

  lemma OneUnit(d: nat)
    requires d < 10
    ensures Decimal([]) == 0 && DecimalText(d) == [] + [48 + d as CodeUnit]
  {
  }

  /** A numeral is the text of its number. */
  lemma {:induction false} ReadsDecimal(key: Text)
    requires NumberKey(key)
    ensures key == DecimalText(Decimal(key)) && (key[0] != 48 ==> Decimal(key) >= 1)
    decreases |key|
  {
    var front, d := LastUnit(key);
    hide Decimal, DecimalText, NumberKey, Digits;
    if front == [] {
      OneUnit(d);
    } else {
      ReadsDecimal(front);
      DecimalTextOn(Decimal(front), d);
    }
  }

  /** The place of a key is the array index it writes, and after all of those if it writes none. */
  lemma SlotIff(key: Text)
    ensures forall n: nat :: n < INDEX_LIMIT ==> (key == DecimalText(n) <==> Slot(key) == n as real)
    ensures Slot(key) <= INDEX_LIMIT as real
    ensures Slot(key) < INDEX_LIMIT as real ==> exists n: nat :: n < INDEX_LIMIT && key == DecimalText(n)
  {
    if NumberKey(key) {
      ReadsDecimal(key);
    }
    forall n: nat | n < INDEX_LIMIT
      ensures key == DecimalText(n) <==> Slot(key) == n as real
    {
      DecimalReads(n);
    }
  }

  /** A canonical object has the entries of the object, each canonical: first the array indices,
      ascending, and then the other keys as the host compares them. */
  lemma CanonicalOrder(h: Host, fields: seq<Field>)
    ensures var c := Canonicalize(h, Object(fields));
            && c.Object? && |c.fields| == |fields|
            && (forall f :: f in c.fields <==>
                  exists i :: 0 <= i < |fields| && f == Field(fields[i].key, Canonicalize(h, fields[i].value)))
            && (forall i, j :: 0 <= i < j < |c.fields| ==>
                  var k, k' := c.fields[i].key, c.fields[j].key;
                  Slot(k) < Slot(k') || (Slot(k) == Slot(k') && h.rank(k) <= h.rank(k')))
  {
    hide Canonicalize, Slot;
    var mapped := CanonicalFields(h, fields);
    Sort2Sorts(mapped, FieldSlot(), FieldRank(h));
    CanonicalObject(h, fields);
    var c := Order(h, mapped);
    forall i, j | 0 <= i < j < |c|
      ensures var k, k' := c[i].key, c[j].key;
              Slot(k) < Slot(k') || (Slot(k) == Slot(k') && h.rank(k) <= h.rank(k'))
    {
      assert Before(FieldSlot(), FieldRank(h), c[i], c[j]);
    }
  }

  // ---------- What a request means ----------

  predicate DistinctKeys(fields: seq<Field>) {
    forall i, j :: 0 <= i < j < |fields| ==> fields[i].key != fields[j].key
  }

  /** Objects have one entry for each key. */
  predicate WellKeyed(v: Json) {
    match v
    case Array(items) => forall i :: 0 <= i < |items| ==> WellKeyed(items[i])
    case Object(fields) =>
      DistinctKeys(fields) && forall i :: 0 <= i < |fields| ==> WellKeyed(fields[i].value)
    case _ => true
  }

  predicate HasKey(fields: seq<Field>, key: Text) {
    exists i :: 0 <= i < |fields| && fields[i].key == key
  }

  /** Equal up to the order of object entries, at any depth, and the line ends and normal form of strings. */
  ghost predicate Equivalent(h: Host, a: Json, b: Json)
    decreases a
  {
    match a
    case String(s) => b.String? && Meaning(h, s) == Meaning(h, b.text)
    case Array(xs) =>
      b.Array? && |xs| == |b.items| && forall i :: 0 <= i < |xs| ==> Equivalent(h, xs[i], b.items[i])
    case Object(fs) =>
      && b.Object?
      && (forall key :: HasKey(fs, key) <==> HasKey(b.fields, key))
      && (forall i, j :: 0 <= i < |fs| && 0 <= j < |b.fields| && fs[i].key == b.fields[j].key ==>
            Equivalent(h, fs[i].value, b.fields[j].value))
    case _ => a == b
  }

  predicate Level(h: Host, k: Text, k': Text) {
    Slot(k) == Slot(k') && h.rank(k) == h.rank(k')
  }

  /** No object has two keys that the order cannot tell apart. */
  predicate Separable(h: Host, v: Json) {
    match v
    case Array(items) => forall i :: 0 <= i < |items| ==> Separable(h, items[i])
    case Object(fields) =>
      && (forall i, j :: 0 <= i < j < |fields| ==> !Level(h, fields[i].key, fields[j].key))
      && (forall i :: 0 <= i < |fields| ==> Separable(h, fields[i].value))
    case _ => true
  }

  // ---------- Equivalent requests have one text ----------

  lemma FieldsSeparated(h: Host, fields: seq<Field>)
    requires forall i, j :: 0 <= i < j < |fields| ==> !Level(h, fields[i].key, fields[j].key)
    ensures Separated(fields, FieldSlot(), FieldRank(h))
  {
  }

  /** Entries that pair up by key, with one canonical value each, sort to one sequence. */
  lemma MatchesSameOrder(h: Host, fs: seq<Field>, gs: seq<Field>)
    requires DistinctKeys(fs) && DistinctKeys(gs)
    requires forall i, j :: 0 <= i < j < |fs| ==> !Level(h, fs[i].key, fs[j].key)
    requires forall key :: HasKey(fs, key) <==> HasKey(gs, key)
    requires forall i, j :: 0 <= i < |fs| && 0 <= j < |gs| && fs[i].key == gs[j].key ==>
      Canonicalize(h, fs[i].value) == Canonicalize(h, gs[j].value)
    ensures Order(h, CanonicalFields(h, fs)) == Order(h, CanonicalFields(h, gs))
  {
    hide Canonicalize;
    var A, B := CanonicalFields(h, fs), CanonicalFields(h, gs);
    forall i | 0 <= i < |fs|
      ensures A[i] in B
    {
      assert HasKey(fs, fs[i].key);
      var j :| 0 <= j < |gs| && gs[j].key == fs[i].key;
      assert B[j] == A[i];
    }
    forall j | 0 <= j < |gs|
      ensures B[j] in A
    {
      assert HasKey(gs, gs[j].key);
      var i :| 0 <= i < |fs| && fs[i].key == gs[j].key;
      assert A[i] == B[j];
    }
    SameMembers(A, B);
    FieldsSeparated(h, A);
    Sort2Canonical(A, B, FieldSlot(), FieldRank(h));
  }

  lemma {:induction false} EquivalentSame(h: Host, a: Json, b: Json)
    requires WellKeyed(a) && WellKeyed(b) && Separable(h, a) && Equivalent(h, a, b)
    ensures Canonicalize(h, a) == Canonicalize(h, b)
    decreases a
  {
    match a {
      case String(s) =>
        CanonicalIsMeaning(h, s);
        CanonicalIsMeaning(h, b.text);
      case Array(xs) =>
        forall i | 0 <= i < |xs|
          ensures Canonicalize(h, xs[i]) == Canonicalize(h, b.items[i])
        {
          EquivalentSame(h, xs[i], b.items[i]);
        }
        assert CanonicalItems(h, xs) == CanonicalItems(h, b.items);
      case Object(fs) =>
        forall i, j | 0 <= i < |fs| && 0 <= j < |b.fields| && fs[i].key == b.fields[j].key
          ensures Canonicalize(h, fs[i].value) == Canonicalize(h, b.fields[j].value)
        {
          EquivalentSame(h, fs[i].value, b.fields[j].value);
        }
        MatchesSameOrder(h, fs, b.fields);
      case _ =>
    }
  }

  // ---------- One text means equivalent requests ----------

  /** Entries that sort to one sequence pair up by key, with one canonical value each. */
  lemma SameOrderMatches(h: Host, fs: seq<Field>, gs: seq<Field>)
    requires DistinctKeys(gs) && Order(h, CanonicalFields(h, fs)) == Order(h, CanonicalFields(h, gs))
    ensures forall i :: 0 <= i < |fs| ==> HasKey(gs, fs[i].key)
    ensures forall i, j :: 0 <= i < |fs| && 0 <= j < |gs| && fs[i].key == gs[j].key ==>
      Canonicalize(h, fs[i].value) == Canonicalize(h, gs[j].value)
  {
    hide Canonicalize;
    var A, B := CanonicalFields(h, fs), CanonicalFields(h, gs);
    Sort2Sorts(A, FieldSlot(), FieldRank(h));
    Sort2Sorts(B, FieldSlot(), FieldRank(h));
    forall i | 0 <= i < |fs|
      ensures exists j :: 0 <= j < |gs| && B[j] == A[i]
    {
      assert A[i] in Order(h, A);
      assert A[i] in B;
    }
    forall i, j | 0 <= i < |fs| && 0 <= j < |gs| && fs[i].key == gs[j].key
      ensures A[i] == B[j]
    {
      var k :| 0 <= k < |gs| && B[k] == A[i];
      assert gs[k].key == gs[j].key;
    }
  }

  lemma {:induction false} SameEquivalent(h: Host, a: Json, b: Json)
    requires WellKeyed(a) && WellKeyed(b) && Canonicalize(h, a) == Canonicalize(h, b)
    ensures Equivalent(h, a, b)
    decreases a
  {
    match a {
      case String(s) =>
        CanonicalIsMeaning(h, s);
        CanonicalIsMeaning(h, b.text);
      case Array(xs) =>
        forall i | 0 <= i < |xs|
          ensures Equivalent(h, xs[i], b.items[i])
        {
          assert CanonicalItems(h, xs)[i] == CanonicalItems(h, b.items)[i];
          SameEquivalent(h, xs[i], b.items[i]);
        }
      case Object(fs) =>
        SameOrderMatches(h, fs, b.fields);
        SameOrderMatches(h, b.fields, fs);
        forall i, j | 0 <= i < |fs| && 0 <= j < |b.fields| && fs[i].key == b.fields[j].key
          ensures Equivalent(h, fs[i].value, b.fields[j].value)
        {
          SameEquivalent(h, fs[i].value, b.fields[j].value);
        }
      case _ =>
    }
  }

  lemma {:induction false} CanonicalPrintable(h: Host, v: Json)
    requires Printable(v)
    ensures Printable(Canonicalize(h, v))
    decreases v
  {
    match v {
      case Array(items) =>
        forall i | 0 <= i < |items|
          ensures Printable(CanonicalItems(h, items)[i])
        {
          CanonicalPrintable(h, items[i]);
        }
      case Object(fields) =>
        var A := CanonicalFields(h, fields);
        forall i | 0 <= i < |fields|
          ensures Printable(A[i].value)
        {
          CanonicalPrintable(h, fields[i].value);
        }
        Sort2Sorts(A, FieldSlot(), FieldRank(h));
        forall i | 0 <= i < |Order(h, A)|
          ensures Printable(Order(h, A)[i].value)
        {
          assert Order(h, A)[i] in A;
        }
      case _ =>
    }
  }

  /** Soundness: requests with one text are equivalent. */
  lemma TextIsSound(h: Host, a: Json, b: Json)
    requires Printable(a) && Printable(b) && WellKeyed(a) && WellKeyed(b)
    requires StableJson(h, a) == StableJson(h, b)
    ensures Equivalent(h, a, b)
  {
    CanonicalPrintable(h, a);
    CanonicalPrintable(h, b);
    PrintInjective(Canonicalize(h, a), Canonicalize(h, b));
    SameEquivalent(h, a, b);
  }

  /** The text decides equivalence, for requests whose keys the order tells apart. */
  lemma StableJsonIff(h: Host, a: Json, b: Json)
    requires Printable(a) && Printable(b) && WellKeyed(a) && WellKeyed(b) && Separable(h, a)
    ensures StableJson(h, a) == StableJson(h, b) <==> Equivalent(h, a, b)
  {
    if StableJson(h, a) == StableJson(h, b) {
      TextIsSound(h, a, b);
    }
    if Equivalent(h, a, b) {
      EquivalentSame(h, a, b);
    }
  }

  // ---------- Exactly which requests have one text ----------

  lemma {:induction false} EquivalentSelf(h: Host, v: Json)
    requires WellKeyed(v)
    ensures Equivalent(h, v, v)
    decreases v
  {
    match v {
      case Array(items) =>
        forall i | 0 <= i < |items|
          ensures Equivalent(h, items[i], items[i])
        {
          EquivalentSelf(h, items[i]);
        }
      case Object(fields) =>
        forall i | 0 <= i < |fields|
          ensures Equivalent(h, fields[i].value, fields[i].value)
        {
          EquivalentSelf(h, fields[i].value);
        }
      case _ =>
    }
  }

  /** An equivalent request with another canonical form, and so with another text. */
  ghost predicate Rival(h: Host, a: Json, b: Json) {
    && WellKeyed(b) && (Printable(a) ==> Printable(b))
    && Equivalent(h, a, b) && Canonicalize(h, a) != Canonicalize(h, b)
  }

  lemma ItemRival(h: Host, items: seq<Json>, i: nat, b: Json)
    requires WellKeyed(Array(items)) && i < |items| && Rival(h, items[i], b)
    ensures Rival(h, Array(items), Array(items[i := b]))
  {
    hide Canonicalize;
    var others := items[i := b];
    forall j | 0 <= j < |items|
      ensures Equivalent(h, items[j], others[j])
    {
      EquivalentSelf(h, items[j]);
    }
    assert CanonicalItems(h, items)[i] != CanonicalItems(h, others)[i];
    CanonicalArray(h, items);
    CanonicalArray(h, others);
  }

  lemma CanonicalArray(h: Host, items: seq<Json>)
    ensures Canonicalize(h, Array(items)) == Array(CanonicalItems(h, items))
  {
  }

  lemma CanonicalObject(h: Host, fields: seq<Field>)
    ensures Canonicalize(h, Object(fields)) == Object(Order(h, CanonicalFields(h, fields)))
  {
  }

  function Replaced(fields: seq<Field>, i: nat, value: Json): seq<Field>
    requires i < |fields|
  {
    fields[i := Field(fields[i].key, value)]
  }

  lemma ReplacedEquivalent(h: Host, fields: seq<Field>, i: nat, b: Json)
    requires WellKeyed(Object(fields)) && i < |fields| && Equivalent(h, fields[i].value, b)
    ensures Equivalent(h, Object(fields), Object(Replaced(fields, i, b)))
  {
    var others := Replaced(fields, i, b);
    forall j | 0 <= j < |fields|
      ensures Equivalent(h, fields[j].value, others[j].value)
    {
      EquivalentSelf(h, fields[j].value);
    }
    SameShape(h, fields, others);
  }

  lemma ReplacedDiffers(h: Host, fields: seq<Field>, i: nat, b: Json)
    requires DistinctKeys(fields) && i < |fields| && Canonicalize(h, fields[i].value) != Canonicalize(h, b)
    ensures Canonicalize(h, Object(fields)) != Canonicalize(h, Object(Replaced(fields, i, b)))
  {
    hide Canonicalize, Order;
    var others := Replaced(fields, i, b);
    CanonicalObject(h, fields);
    CanonicalObject(h, others);
    if Canonicalize(h, Object(fields)) == Canonicalize(h, Object(others)) {
      SameOrderMatches(h, fields, others);
    }
  }

  lemma FieldRival(h: Host, fields: seq<Field>, i: nat, b: Json)
    requires WellKeyed(Object(fields)) && i < |fields| && Rival(h, fields[i].value, b)
    ensures Rival(h, Object(fields), Object(Replaced(fields, i, b)))
  {
    hide Canonicalize, Order, Equivalent;
    ReplacedEquivalent(h, fields, i, b);
    ReplacedDiffers(h, fields, i, b);
  }

  function Swapped(fields: seq<Field>, i: nat, j: nat): seq<Field>
    requires i < j < |fields|
  {
    fields[i := fields[j]][j := fields[i]]
  }

  /** The entries whose keys compare equal to a key. */
  function LevelWith(h: Host, key: Text): Field -> bool {
    (f: Field) => Level(h, f.key, key)
  }

  lemma {:induction false} FirstAt(h: Host, fields: seq<Field>, i: nat, key: Text)
    requires i < |fields| && Level(h, fields[i].key, key)
    requires forall k :: 0 <= k < i ==> !Level(h, fields[k].key, key)
    ensures First(CanonicalFields(h, fields), LevelWith(h, key)) == Some(CanonicalField(h, fields[i]))
  {
    var A := CanonicalFields(h, fields);
    if i > 0 {
      FirstAt(h, fields[1..], i - 1, key);
      assert A[1..] == CanonicalFields(h, fields[1..]);
    }
  }

  /** Swapping the first of some level keys with another of them shows in the order. */
  lemma SwapRival(h: Host, fields: seq<Field>, i: nat, j: nat)
    requires WellKeyed(Object(fields)) && i < j < |fields| && Level(h, fields[i].key, fields[j].key)
    requires forall k :: 0 <= k < i ==> !Level(h, fields[k].key, fields[j].key)
    ensures Rival(h, Object(fields), Object(Swapped(fields, i, j)))
  {
    hide Canonicalize, Level;
    var others, among := Swapped(fields, i, j), LevelWith(h, fields[j].key);
    LevelSelf(h, fields[j].key);
    FirstAt(h, fields, i, fields[j].key);
    FirstAt(h, others, i, fields[j].key);
    OrderKeepsFirst(h, CanonicalFields(h, fields), fields[j].key);
    OrderKeepsFirst(h, CanonicalFields(h, others), fields[j].key);
    CanonicalObject(h, fields);
    CanonicalObject(h, others);
    SwapEquivalent(h, fields, i, j);
  }

  lemma LevelSelf(h: Host, key: Text)
    ensures Level(h, key, key)
  {
  }

  lemma OrderKeepsFirst(h: Host, fields: seq<Field>, key: Text)
    ensures First(Order(h, fields), LevelWith(h, key)) == First(fields, LevelWith(h, key))
  {
    SortKeepsFirst(fields, FieldRank(h), LevelWith(h, key));
    SortKeepsFirst(Sort(fields, FieldRank(h)), FieldSlot(), LevelWith(h, key));
  }

  lemma SwapEquivalent(h: Host, fields: seq<Field>, i: nat, j: nat)
    requires WellKeyed(Object(fields)) && i < j < |fields|
    ensures var b := Object(Swapped(fields, i, j));
            Equivalent(h, Object(fields), b) && WellKeyed(b) && (Printable(Object(fields)) ==> Printable(b))
  {
    var others := Swapped(fields, i, j);
    forall key
      ensures HasKey(fields, key) <==> HasKey(others, key)
    {
      if k :| 0 <= k < |fields| && fields[k].key == key {
        assert others[if k == i then j else if k == j then i else k].key == key;
      }
      if k :| 0 <= k < |others| && others[k].key == key {
        assert fields[if k == i then j else if k == j then i else k].key == key;
      }
    }
    forall k, l | 0 <= k < |fields| && 0 <= l < |others| && fields[k].key == others[l].key
      ensures Equivalent(h, fields[k].value, others[l].value)
    {
      assert k == if l == i then j else if l == j then i else l;
      EquivalentSelf(h, fields[k].value);
    }
  }

  lemma {:induction false} FirstLevel(h: Host, fields: seq<Field>, j: nat, n: nat) returns (i: nat)
    requires n < j < |fields| && Level(h, fields[n].key, fields[j].key)
    ensures i <= n && Level(h, fields[i].key, fields[j].key)
    ensures forall k :: 0 <= k < i ==> !Level(h, fields[k].key, fields[j].key)
  {
    i := n;
    if k :| 0 <= k < n && Level(h, fields[k].key, fields[j].key) {
      i := FirstLevel(h, fields, j, k);
    }
  }

  /** A request in which the order finds two keys level, at any depth, has a rival. */
  lemma {:induction false} LevelHasRival(h: Host, a: Json) returns (b: Json)
    requires WellKeyed(a) && !Separable(h, a)
    ensures Rival(h, a, b)
    decreases a
  {
    hide Rival, Level, Canonicalize, Swapped, Replaced;
    match a {
      case Array(items) =>
        var i :| 0 <= i < |items| && !Separable(h, items[i]);
        var other := LevelHasRival(h, items[i]);
        ItemRival(h, items, i, other);
        b := Array(items[i := other]);
      case Object(fields) =>
        if i, j :| 0 <= i < j < |fields| && Level(h, fields[i].key, fields[j].key) {
          var first := FirstLevel(h, fields, j, i);
          SwapRival(h, fields, first, j);
          b := Object(Swapped(fields, first, j));
        } else {
          var i :| 0 <= i < |fields| && !Separable(h, fields[i].value);
          var other := LevelHasRival(h, fields[i].value);
          FieldRival(h, fields, i, other);
          b := Object(Replaced(fields, i, other));
        }
      case _ =>
        assert false;
        b := a;
    }
  }

  /** Every equivalent request has this request's text. */
  ghost predicate OneText(h: Host, a: Json) {
    forall b :: Printable(b) && WellKeyed(b) && Equivalent(h, a, b) ==> StableJson(h, a) == StableJson(h, b)
  }

  /** All equivalents of a request share its text exactly when the order tells apart the keys of
      each of its objects, which the request alone decides. */
  lemma OneTextIff(h: Host, a: Json)
    requires Printable(a) && WellKeyed(a)
    ensures OneText(h, a) <==> Separable(h, a)
  {
    if Separable(h, a) {
      forall b | Printable(b) && WellKeyed(b) && Equivalent(h, a, b)
        ensures StableJson(h, a) == StableJson(h, b)
      {
        EquivalentSame(h, a, b);
      }
    } else {
      var b := LevelHasRival(h, a);
      CanonicalPrintable(h, a);
      CanonicalPrintable(h, b);
      if StableJson(h, a) == StableJson(h, b) {
        PrintInjective(Canonicalize(h, a), Canonicalize(h, b));
      }
    }
  }

  // ---------- Exactly when the order of keys never matters ----------

  ghost predicate OrderBlind(h: Host) {
    forall a, b :: Printable(a) && Printable(b) && WellKeyed(a) && WellKeyed(b) && Equivalent(h, a, b) ==>
      StableJson(h, a) == StableJson(h, b)
  }

  ghost predicate TellsApart(h: Host) {
    forall k, k' :: k != k' ==> !Level(h, k, k')
  }

  lemma {:induction false} ApartSeparable(h: Host, v: Json)
    requires TellsApart(h) && WellKeyed(v)
    ensures Separable(h, v)
    decreases v
  {
    match v {
      case Array(items) =>
        forall i | 0 <= i < |items|
          ensures Separable(h, items[i])
        {
          ApartSeparable(h, items[i]);
        }
      case Object(fields) =>
        forall i | 0 <= i < |fields|
          ensures Separable(h, fields[i].value)
        {
          ApartSeparable(h, fields[i].value);
        }
      case _ =>
    }
  }

  /** Two keys that compare equal keep the order they came in, and the texts differ. */
  lemma LevelKeysShowOrder(h: Host, k: Text, k': Text)
    requires k != k' && Level(h, k, k')
    ensures var a, b := Object([Field(k, Null), Field(k', Null)]), Object([Field(k', Null), Field(k, Null)]);
            && Printable(a) && Printable(b) && WellKeyed(a) && WellKeyed(b)
            && Equivalent(h, a, b) && StableJson(h, a) != StableJson(h, b)
  {
    var x, y := Field(k, Null), Field(k', Null);
    var a, b := Object([x, y]), Object([y, x]);
    KeepsLevel(x, y, FieldRank(h));
    KeepsLevel(y, x, FieldRank(h));
    KeepsLevel(x, y, FieldSlot());
    KeepsLevel(y, x, FieldSlot());
    assert CanonicalFields(h, [x, y]) == [x, y] && CanonicalFields(h, [y, x]) == [y, x];
    assert Canonicalize(h, a) == a && Canonicalize(h, b) == b;
    if Print(a) == Print(b) {
      PrintInjective(a, b);
    }
    assert [x, y][0] != [y, x][0];
    assert a.fields[0].key == k && a.fields[1].key == k' && b.fields[0].key == k' && b.fields[1].key == k;
    forall key
      ensures HasKey(a.fields, key) <==> HasKey(b.fields, key)
    {
      assert HasKey(a.fields, key) <==> key == k || key == k';
      assert HasKey(b.fields, key) <==> key == k || key == k';
    }
  }

  lemma KeepsLevel(x: Field, y: Field, rank: Field -> real)
    requires rank(x) == rank(y)
    ensures Sort([x, y], rank) == [x, y]
  {
    assert [x, y][1..] == [y] && [y][1..] == [];
    assert Sort([y], rank) == [y];
  }

  /** Reordering never changes the text exactly when no two different keys compare equal. */
  lemma OrderBlindIff(h: Host)
    ensures OrderBlind(h) <==> TellsApart(h)
  {
    if TellsApart(h) {
      forall a, b | Printable(a) && Printable(b) && WellKeyed(a) && WellKeyed(b) && Equivalent(h, a, b)
        ensures StableJson(h, a) == StableJson(h, b)
      {
        ApartSeparable(h, a);
        EquivalentSame(h, a, b);
      }
    }
    forall k, k' | k != k' && Level(h, k, k')
      ensures !OrderBlind(h)
    {
      LevelKeysShowOrder(h, k, k');
    }
  }

  // ---------- Canonical forms are fixed ----------

  ghost predicate NfcLaws(h: Host) {
    && (forall s :: h.nfc(h.nfc(s)) == h.nfc(s))
    && (forall s :: CR !in s ==> CR !in h.nfc(s))
  }

  lemma {:induction false} ReplacedHasNoCr(s: Text)
    ensures CR !in ReplaceCr(s)
  {
    if s != [] {
      ReplacedHasNoCr(s[1..]);
    }
  }

  lemma {:induction false} NoCrFixed(s: Text)
    requires CR !in s
    ensures ReplaceCr(s) == s && JoinLines(s) == s
  {
    if s != [] {
      NoCrFixed(s[1..]);
      assert s == [s[0]] + s[1..];
    }
  }

  lemma CanonicalStringFixed(h: Host, s: Text)
    requires NfcLaws(h)
    ensures CanonicalString(h, CanonicalString(h, s)) == CanonicalString(h, s)
  {
    ReplacedHasNoCr(JoinLines(s));
    NoCrFixed(CanonicalString(h, s));
  }

  /** Canonicalising twice is canonicalising once, for any keys. */
  lemma {:induction false} CanonicalFixed(h: Host, v: Json)
    requires NfcLaws(h)
    ensures Canonicalize(h, Canonicalize(h, v)) == Canonicalize(h, v)
    decreases v
  {
    match v {
      case String(s) =>
        CanonicalStringFixed(h, s);
      case Array(items) =>
        var c := CanonicalItems(h, items);
        forall i | 0 <= i < |items|
          ensures CanonicalItems(h, c)[i] == c[i]
        {
          CanonicalFixed(h, items[i]);
        }
        assert CanonicalItems(h, c) == c;
      case Object(fields) =>
        var A := CanonicalFields(h, fields);
        var sorted := Order(h, A);
        Sort2Sorts(A, FieldSlot(), FieldRank(h));
        forall i | 0 <= i < |sorted|
          ensures CanonicalFields(h, sorted)[i] == sorted[i]
        {
          assert sorted[i] in A;
          var k :| 0 <= k < |A| && A[k] == sorted[i];
          CanonicalFixed(h, fields[k].value);
        }
        assert CanonicalFields(h, sorted) == sorted;
        Sort2Idempotent(A, FieldSlot(), FieldRank(h));
      case _ =>
    }
  }

  // ---------- The exact cache's identity ----------

  datatype Identity = Identity(client: Text, namespace: Text, provider: Text, model: Text, request: Json)

  function Ascii(s: string): Text
    requires forall i :: 0 <= i < |s| ==> s[i] < 128 as char
  {
    seq(|s|, i requires 0 <= i < |s| => s[i] as CodeUnit)
  }

  /** The object that is hashed: the canonicalisation version, then the five parts. */
  function IdentityJson(id: Identity): Json {
    Object([Field(Ascii("canonicalizationVersion"), Number(Ascii("1"))),
            Field(Ascii("client"), String(id.client)),
            Field(Ascii("namespace"), String(id.namespace)),
            Field(Ascii("provider"), String(id.provider)),
            Field(Ascii("model"), String(id.model)),
            Field(Ascii("request"), id.request)])
  }

  lemma IdentityKeysDistinct(id: Identity)
    ensures DistinctKeys(IdentityJson(id).fields)
  {
    var f := IdentityJson(id).fields;
    assert f[0].key[0] == 99 && f[0].key[1] == 97;
    assert f[1].key[0] == 99 && f[1].key[1] == 108;
    assert f[2].key[0] == 110 && f[3].key[0] == 112 && f[4].key[0] == 109 && f[5].key[0] == 114;
  }

  /** The hash does not tell two texts apart. */
  predicate Collide(hash: Text -> Text, s: Text, t: Text) {
    s != t && hash(s) == hash(t)
  }

  ghost predicate SameRequest(h: Host, a: Identity, b: Identity) {
    && Meaning(h, a.client) == Meaning(h, b.client)
    && Meaning(h, a.namespace) == Meaning(h, b.namespace)
    && Meaning(h, a.provider) == Meaning(h, b.provider)
    && Meaning(h, a.model) == Meaning(h, b.model)
    && Equivalent(h, a.request, b.request)
  }

  /** Objects listing the same keys in the same order are equivalent entry by entry. */
  lemma SameShape(h: Host, fs: seq<Field>, gs: seq<Field>)
    requires |fs| == |gs| && DistinctKeys(fs)
    requires forall i :: 0 <= i < |fs| ==> fs[i].key == gs[i].key
    ensures Equivalent(h, Object(fs), Object(gs)) <==>
            forall i :: 0 <= i < |fs| ==> Equivalent(h, fs[i].value, gs[i].value)
  {
    forall key
      ensures HasKey(fs, key) <==> HasKey(gs, key)
    {
      if i :| 0 <= i < |fs| && fs[i].key == key {
        assert gs[i].key == key;
      }
      if i :| 0 <= i < |gs| && gs[i].key == key {
        assert fs[i].key == key;
      }
    }
  }

  lemma IdentityEquivalent(h: Host, a: Identity, b: Identity)
    ensures Equivalent(h, IdentityJson(a), IdentityJson(b)) <==> SameRequest(h, a, b)
  {
    hide Ascii, Meaning, DistinctKeys;
    var x, y := IdentityJson(a).fields, IdentityJson(b).fields;
    IdentityKeysDistinct(a);
    SameShape(h, x, y);
    assert x[5].value == a.request && y[5].value == b.request;
    assert Equivalent(h, x[0].value, y[0].value);
    if forall i :: 0 <= i < 6 ==> Equivalent(h, x[i].value, y[i].value) {
      assert Equivalent(h, x[1].value, y[1].value) && Equivalent(h, x[2].value, y[2].value);
      assert Equivalent(h, x[3].value, y[3].value) && Equivalent(h, x[4].value, y[4].value);
      assert Equivalent(h, x[5].value, y[5].value);
    }
  }

  lemma IdentityWellFormed(id: Identity)
    requires Printable(id.request) && WellKeyed(id.request)
    ensures Printable(IdentityJson(id)) && WellKeyed(IdentityJson(id))
  {
    IdentityKeysDistinct(id);
  }

  /** Two lookups share an entry exactly when client, namespace, provider and model agree and the
      requests are equivalent, or the hashes of their two texts happen to collide. */
  lemma ExactCacheIdIff(h: Host, hash: Text -> Text, a: Identity, b: Identity)
    requires Printable(a.request) && Printable(b.request) && WellKeyed(a.request) && WellKeyed(b.request)
    requires Separable(h, IdentityJson(a))
    ensures hash(StableJson(h, IdentityJson(a))) == hash(StableJson(h, IdentityJson(b))) <==>
            SameRequest(h, a, b) || Collide(hash, StableJson(h, IdentityJson(a)), StableJson(h, IdentityJson(b)))
  {
    hide IdentityJson, StableJson, SameRequest, Equivalent;
    IdentityWellFormed(a);
    IdentityWellFormed(b);
    IdentityEquivalent(h, a, b);
    StableJsonIff(h, IdentityJson(a), IdentityJson(b));
  }
}
