/** How queue/fileq encodes an entry's sequence, delivery count and lease in its file name. */
module FileNames {
  import opened Decimal

  /** What an entry's name says; the lease is 0 unless the entry is being processed. */
  datatype Name = Name(id: string, deliveries: int, lease: int)

  const MIN_INT64: int := -0x8000_0000_0000_0000
  const MAX_INT64: int := 0x7fff_ffff_ffff_ffff

  predicate IsInt64(i: int) {
    MIN_INT64 <= i <= MAX_INT64
  }

  predicate DotFree(s: string) {
    '.' !in s
  }

  function EntryName(n: Name): string {
    n.id + Tail(n.deliveries, n.lease)
  }

  function Tail(deliveries: int, lease: int): string {
    "." + FormatInt(deliveries) + "." + FormatInt(lease) + ".json"
  }

  /** Sequence of the counter-th message published through a queue opened at startNS. */
  function SeqName(startNS: nat, counter: nat): string {
    Pad(19, startNS) + "_" + Pad(8, counter)
  }

  function CutSuffix(s: string, suffix: string): Option<string> {
    if |suffix| <= |s| && s[|s| - |suffix|..] == suffix then Some(s[..|s| - |suffix|]) else None
  }

  function Split(s: string, sep: char): (parts: seq<string>)
    ensures parts != []
  {
    if s == [] then [[]]
    else
      var rest := Split(s[1..], sep);
      if s[0] == sep then [[]] + rest else [[s[0]] + rest[0]] + rest[1..]
  }

  function ParseInt64(s: string): Option<int> {
    var i := ParseInt(s);
    if i.Some? && IsInt64(i.value) then i else None
  }

  function ParseName(name: string): Option<Name> {
    match CutSuffix(name, ".json")
    case None => None
    case Some(base) =>
      var parts := Split(base, '.');
      if |parts| != 3 then None
      else
        match (ParseInt64(parts[1]), ParseInt64(parts[2]))
        case (Some(d), Some(l)) => Some(Name(parts[0], d, l))
        case _ => None
  }

  // ---------- Splitting ----------

  lemma {:induction false} SplitWhole(s: string, sep: char)
    requires sep !in s
    ensures Split(s, sep) == [s]
  {
    if s != [] {
      SplitWhole(s[1..], sep);
      assert [s[0]] + s[1..] == s;
    }
  }

  lemma {:induction false} SplitAround(a: string, sep: char, b: string)
    ensures |Split(a + [sep] + b, sep)| == |Split(a, sep)| + |Split(b, sep)|
    ensures sep !in a ==> Split(a + [sep] + b, sep) == [a] + Split(b, sep)
  {
    var s := a + [sep] + b;
    if a == [] {
      assert s[1..] == b;
    } else {
      assert s[1..] == a[1..] + [sep] + b;
      SplitAround(a[1..], sep, b);
      if sep !in a {
        assert [a[0]] + a[1..] == a;
      }
    }
  }

  lemma {:induction false} SplitCounts(s: string, sep: char)
    ensures |Split(s, sep)| == 1 <==> sep !in s
  {
    if s != [] {
      SplitCounts(s[1..], sep);
      assert s == [s[0]] + s[1..];
    }
  }

  // ---------- The round trip ----------

  /** The base of an entry's name and the parts it splits into. */
  lemma EntryParts(n: Name)
    ensures CutSuffix(EntryName(n), ".json").Some?
    ensures var parts := Split(CutSuffix(EntryName(n), ".json").value, '.');
            && (DotFree(n.id) ==> parts == [n.id, FormatInt(n.deliveries), FormatInt(n.lease)])
            && (!DotFree(n.id) ==> |parts| != 3)
  {
    var d, l := FormatInt(n.deliveries), FormatInt(n.lease);
    var base := n.id + ['.'] + (d + ['.'] + l);
    assert EntryName(n) == base + ".json";
    assert CutSuffix(EntryName(n), ".json") == Some(base);
    SplitAround(n.id, '.', d + ['.'] + l);
    SplitAround(d, '.', l);
    SplitWhole(d, '.');
    SplitWhole(l, '.');
    SplitCounts(n.id, '.');
  }

  /** For values that fit the source's integers, parseName inverts entryName exactly
      on the sequences without a dot. */
  lemma RoundTrip(n: Name)
    requires IsInt64(n.deliveries) && IsInt64(n.lease)
    ensures ParseName(EntryName(n)) == Some(n) <==> DotFree(n.id)
    ensures ParseName(EntryName(n)) == None <==> !DotFree(n.id)
  {
    EntryParts(n);
    ParseOfFormatInt(n.deliveries);
    ParseOfFormatInt(n.lease);
  }

  /** Different entries have different file names, whatever the size of their numbers. */
  lemma EntryNameInjective(m: Name, n: Name)
    requires DotFree(m.id) && DotFree(n.id)
    requires EntryName(m) == EntryName(n)
    ensures m == n
  {
    EntryParts(m);
    EntryParts(n);
    ParseOfFormatInt(m.deliveries);
    ParseOfFormatInt(n.deliveries);
    ParseOfFormatInt(m.lease);
    ParseOfFormatInt(n.lease);
  }

  // ---------- Sequences ----------

  lemma SeqNameDotFree(startNS: nat, counter: nat)
    ensures DotFree(SeqName(startNS, counter))
  {
  }

  /** No two publishes share a sequence, whatever the width of their numbers. */
  lemma SeqNameInjective(s1: nat, c1: nat, s2: nat, c2: nat)
    requires SeqName(s1, c1) == SeqName(s2, c2)
    ensures s1 == s2 && c1 == c2
  {
    var a1, b1, a2, b2 := Pad(19, s1), Pad(8, c1), Pad(19, s2), Pad(8, c2);
    assert '_' !in a1 && '_' !in a2 && '_' !in b1 && '_' !in b2;
    SplitAround(a1, '_', b1);
    SplitAround(a2, '_', b2);
    SplitWhole(b1, '_');
    SplitWhole(b2, '_');
    assert Split(SeqName(s1, c1), '_') == [a1, b1] && Split(SeqName(s2, c2), '_') == [a2, b2];
    ValueOfPad(19, s1);
    ValueOfPad(19, s2);
    ValueOfPad(8, c1);
    ValueOfPad(8, c2);
  }

  predicate Before(s1: nat, c1: nat, s2: nat, c2: nat) {
    s1 < s2 || (s1 == s2 && c1 < c2)
  }

  lemma PaddedLength(width: nat, n: nat)
    requires width > 0 && n < Pow10(width)
    ensures |Pad(width, n)| == width
  {
    FormatFits(width, n);
  }

  /** Start times and counters that the zero padding was made for: any start time an
      int64 can hold, and fewer than 10^8 publishes per opened queue. */
  predicate Padded(startNS: nat, counter: nat) {
    startNS <= MAX_INT64 && counter < 100_000_000
  }

  lemma SeqNameLength(startNS: nat, counter: nat)
    requires Padded(startNS, counter)
    ensures |Pad(19, startNS)| == 19 && |Pad(8, counter)| == 8
  {
    assert Pow10(4) == 10_000;
    assert Pow10(8) == 100_000_000;
    assert Pow10(12) == 1_000_000_000_000;
    assert Pow10(16) == 10_000_000_000_000_000;
    assert Pow10(19) == 10_000_000_000_000_000_000;
    PaddedLength(19, startNS);
    PaddedLength(8, counter);
  }

  /** Padded sequences have one length, and their order as strings is the order of publishing. */
  lemma SeqOrder(s1: nat, c1: nat, s2: nat, c2: nat)
    requires Padded(s1, c1) && Padded(s2, c2)
    ensures |SeqName(s1, c1)| == |SeqName(s2, c2)| == 28
    ensures Less(SeqName(s1, c1), SeqName(s2, c2)) <==> Before(s1, c1, s2, c2)
  {
    var a1, b1, a2, b2 := Pad(19, s1), Pad(8, c1), Pad(19, s2), Pad(8, c2);
    SeqNameLength(s1, c1);
    SeqNameLength(s2, c2);
    NumeralOrder(a1, a2);
    NumeralOrder(b1, b2);
    assert Value(a1) == s1 && Value(b1) == c1 && Value(a2) == s2 && Value(b2) == c2 by {
      ValueOfPad(19, s1);
      ValueOfPad(19, s2);
      ValueOfPad(8, c1);
      ValueOfPad(8, c2);
    }
    LessByPrefix(a1, a2, "_" + b1, "_" + b2);
    LessByPrefix("_", "_", b1, b2);
    assert SeqName(s1, c1) == a1 + ("_" + b1) && SeqName(s2, c2) == a2 + ("_" + b2);
  }

  /** Sorting names as strings sorts the publishes by start time and counter. */
  lemma NameOrderIsPublishOrder(s1: nat, c1: nat, s2: nat, c2: nat, d1: int, l1: int, d2: int, l2: int)
    requires Padded(s1, c1) && Padded(s2, c2) && !(s1 == s2 && c1 == c2)
    ensures Less(EntryName(Name(SeqName(s1, c1), d1, l1)), EntryName(Name(SeqName(s2, c2), d2, l2)))
       <==> Before(s1, c1, s2, c2)
  {
    var id1, id2 := SeqName(s1, c1), SeqName(s2, c2);
    SeqOrder(s1, c1, s2, c2);
    if id1 == id2 {
      SeqNameInjective(s1, c1, s2, c2);
    }
    LessByPrefix(id1, id2, Tail(d1, l1), Tail(d2, l2));
  }

  lemma OverflowHeads()
    ensures Pad(8, 100_000_000)[0] == '1' && Pad(8, 99_999_999)[0] == '9'
  {
    assert Pow10(4) == 10_000;
    assert Pow10(8) == 100_000_000;
    PowersAndNines(8);
  }

  lemma FirstCharDecides(a: string, x: string, y: string)
    requires x != [] && y != [] && x[0] < y[0]
    ensures Less(a + x, a + y)
  {
    assert Less(x, y);
    LessByPrefix(a, a, x, y);
  }

  /** The 10^8-th publish of one queue sorts before the one made just before it, whatever counts
      and leases their entries carry. */
  lemma PaddingOverflow(startNS: nat, d1: int, l1: int, d2: int, l2: int)
    ensures Less(EntryName(Name(SeqName(startNS, 100_000_000), d1, l1)),
                 EntryName(Name(SeqName(startNS, 99_999_999), d2, l2)))
  {
    hide Less, Pad, Tail;
    OverflowHeads();
    var a, late, early := Pad(19, startNS) + "_", Pad(8, 100_000_000), Pad(8, 99_999_999);
    var x, y := late + Tail(d1, l1), early + Tail(d2, l2);
    assert EntryName(Name(SeqName(startNS, 100_000_000), d1, l1)) == a + x;
    assert EntryName(Name(SeqName(startNS, 99_999_999), d2, l2)) == a + y;
    FirstCharDecides(a, x, y);
  }

  /** Entry names of one queue's first `last` publishes sort in the order of publishing. */
  ghost predicate SortsByPublish(startNS: nat, last: nat) {
    forall c1: nat, c2: nat, d1, l1, d2, l2 | c1 <= last && c2 <= last && c1 != c2 ::
      Less(EntryName(Name(SeqName(startNS, c1), d1, l1)), EntryName(Name(SeqName(startNS, c2), d2, l2))) <==> c1 < c2
  }

  /** They do exactly for fewer than 10^8 publishes. */
  lemma PaddingIsExact(startNS: nat, last: nat)
    requires startNS <= MAX_INT64
    ensures SortsByPublish(startNS, last) <==> last < 100_000_000
  {
    hide Less, SeqName;
    if last < 100_000_000 {
      forall c1: nat, c2: nat, d1, l1, d2, l2 | c1 <= last && c2 <= last && c1 != c2
        ensures Less(EntryName(Name(SeqName(startNS, c1), d1, l1)), EntryName(Name(SeqName(startNS, c2), d2, l2)))
           <==> c1 < c2
      {
        NameOrderIsPublishOrder(startNS, c1, startNS, c2, d1, l1, d2, l2);
      }
    } else {
      PaddingOverflow(startNS, 0, 0, 0, 0);
      assert !SortsByPublish(startNS, last);
    }
  }
}
