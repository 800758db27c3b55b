/** The version of the embeddings (platform/registry.go): a digest of a byte
    stream over the positions in the order of their IDs, and why equal streams
    mean equal embeddings. */
module Versions {
  import opened Positions
  import opened Sequences

  // ----- IDs -----

  function Digit(d: nat): char
    requires d < 10
  {
    '0' + d as char
  }

  /** %d. */
  function Decimal(n: nat): string {
    if n < 10 then [Digit(n)] else Decimal(n / 10) + [Digit(n % 10)]
  }

  function Value(s: string): int {
    if s == "" then 0 else 10 * Value(s[..|s| - 1]) + (s[|s| - 1] as int - '0' as int)
  }

  predicate Digits(s: string) {
    s != "" && forall i :: 0 <= i < |s| ==> '0' <= s[i] <= '9'
  }

  /** The numeral of n: digits of value n, without a leading zero. */
  lemma {:induction false} ValueOfDecimal(n: nat)
    ensures Digits(Decimal(n)) && Value(Decimal(n)) == n
    ensures n > 0 ==> Decimal(n)[0] != '0'
  {
    if n >= 10 {
      ValueOfDecimal(n / 10);
      assert Decimal(n)[..|Decimal(n)| - 1] == Decimal(n / 10);
    } else {
      assert Value(Decimal(n)[..0]) == 0;
    }
  }

  function IdOf(n: nat): string {
    "adv-" + Decimal(n)
  }

  /** SUBSTR(id, 5), read as a number. */
  function Number(id: string): int {
    if |id| < 4 then 0 else Value(id[4..])
  }

  lemma NumberOfId(n: nat)
    ensures Number(IdOf(n)) == n
  {
    assert IdOf(n)[4..] == Decimal(n);
    ValueOfDecimal(n);
  }

  /** A way to issue IDs and to read their numbers back. */
  datatype IdScheme = IdScheme(of: nat -> string, number: string -> int) {
    ghost predicate Law(n: nat) {
      number(of(n)) == n && of(n) != ""
    }

    ghost predicate Lawful() {
      forall n :: Law(n)
    }
  }

  /** The registry's IDs, from which their numbers can be read back. */
  function AdvIds(): (ids: IdScheme)
    ensures ids.Lawful()
  {
    var ids := IdScheme(IdOf, Number);
    assert ids.Lawful() by {
      forall n ensures ids.Law(n) {
        NumberOfId(n);
      }
    }
    ids
  }

  type Ids = ids: IdScheme | ids.Lawful() witness AdvIds()

  /** An ID as the registry issues it. */
  ghost predicate Issued(id: string) {
    exists n: nat :: id == IdOf(n)
  }

  // ----- the order of strings -----

  predicate Less(a: string, b: string) {
    if b == "" then false
    else if a == "" then true
    else a[0] < b[0] || (a[0] == b[0] && Less(a[1..], b[1..]))
  }

  /** At k the strings differ for the first time, a with the smaller character
      or at its end. */
  predicate DiffersBelow(a: string, b: string, k: nat) {
    k <= |a| && k < |b| && a[..k] == b[..k] && (k == |a| || a[k] < b[k])
  }

  lemma {:induction false} LessIsLexicographic(a: string, b: string)
    ensures Less(a, b) <==> exists k: nat :: DiffersBelow(a, b, k)
  {
    if a == "" || b == "" || a[0] != b[0] {
      if Less(a, b) {
        assert DiffersBelow(a, b, 0);
      }
      forall k: nat | DiffersBelow(a, b, k) ensures Less(a, b) {
        assert k > 0 ==> a[..k][0] == b[..k][0];
      }
    } else {
      LessIsLexicographic(a[1..], b[1..]);
      if k: nat :| DiffersBelow(a[1..], b[1..], k) {
        DiffersLater(a, b, k);
      }
      forall k: nat | DiffersBelow(a, b, k) ensures Less(a, b) {
        DiffersEarlier(a, b, k);
      }
    }
  }

  lemma DiffersLater(a: string, b: string, k: nat)
    requires a != "" && b != "" && a[0] == b[0] && DiffersBelow(a[1..], b[1..], k)
    ensures DiffersBelow(a, b, k + 1)
  {
    assert a[..k + 1] == [a[0]] + a[1..][..k] && b[..k + 1] == [b[0]] + b[1..][..k];
  }

  lemma DiffersEarlier(a: string, b: string, k: nat)
    requires a != "" && b != "" && a[0] == b[0] && DiffersBelow(a, b, k)
    ensures k > 0 && DiffersBelow(a[1..], b[1..], k - 1)
  {
    assert k > 0;
    assert a[1..][..k - 1] == a[..k][1..] && b[1..][..k - 1] == b[..k][1..];
  }

  lemma {:induction false} LessTransitive(a: string, b: string, c: string)
    requires Less(a, b) && Less(b, c)
    ensures Less(a, c)
  {
    if a != "" && a[0] == b[0] == c[0] {
      LessTransitive(a[1..], b[1..], c[1..]);
    }
  }

  lemma {:induction false} LessTotal(a: string, b: string)
    ensures !Less(a, a)
    ensures !(Less(a, b) && Less(b, a))
    ensures Less(a, b) || Less(b, a) || a == b
  {
    if a != "" {
      LessTotal(a[1..], a[1..]);
      if b != "" && a[0] == b[0] {
        LessTotal(a[1..], b[1..]);
        assert a == [a[0]] + a[1..] && b == [b[0]] + b[1..];
      }
    }
  }

  predicate Ascending(ids: seq<string>) {
    forall i :: 0 <= i < |ids| - 1 ==> Less(ids[i], ids[i + 1])
  }

  lemma {:induction false} AscendingPairs(ids: seq<string>, i: nat, j: nat)
    requires Ascending(ids) && i < j < |ids|
    ensures Less(ids[i], ids[j])
  {
    assert Less(ids[j - 1], ids[j - 1 + 1]);
    if i < j - 1 {
      AscendingPairs(ids, i, j - 1);
      LessTransitive(ids[i], ids[j - 1], ids[j]);
    }
  }

  function Insert(id: string, ids: seq<string>): (r: seq<string>)
    ensures forall x :: x in r <==> x == id || x in ids
  {
    if ids == [] || Less(id, ids[0]) then [id] + ids else [ids[0]] + Insert(id, ids[1..])
  }

  lemma {:induction false} InsertAscending(id: string, ids: seq<string>)
    requires Ascending(ids) && id !in ids
    ensures Ascending(Insert(id, ids)) && (ids != [] ==> Insert(id, ids)[0] == if Less(id, ids[0]) then id else ids[0])
  {
    if ids != [] && !Less(id, ids[0]) {
      LessTotal(id, ids[0]);
      assert Ascending(ids[1..]) by {
        forall i | 0 <= i < |ids[1..]| - 1 ensures Less(ids[1..][i], ids[1..][i + 1]) {
          assert Less(ids[i + 1], ids[i + 1 + 1]);
        }
      }
      InsertAscending(id, ids[1..]);
      var r := Insert(id, ids[1..]);
      if |ids| > 1 {
        assert Less(ids[0], ids[0 + 1]);
      }
      forall i | 0 <= i < |r| ensures Less(([ids[0]] + r)[i], ([ids[0]] + r)[i + 1]) {
        if i > 0 {
          assert Less(r[i - 1], r[i - 1 + 1]);
        }
      }
    }
  }

  /** sort.Strings on different IDs. */
  function Sort(ids: seq<string>): (r: seq<string>)
    ensures forall x :: x in r <==> x in ids
  {
    if ids == [] then [] else Insert(ids[|ids| - 1], Sort(ids[..|ids| - 1]))
  }

  lemma {:induction false} SortAscending(ids: seq<string>)
    requires Distinct(ids)
    ensures Ascending(Sort(ids))
  {
    if ids != [] {
      var n := |ids| - 1;
      SortAscending(ids[..n]);
      assert ids[n] !in ids[..n];
      InsertAscending(ids[n], Sort(ids[..n]));
    }
  }

  /** Only one sequence lists a set in ascending order. */
  lemma {:induction false} AscendingUnique(a: seq<string>, b: seq<string>)
    requires Ascending(a) && Ascending(b) && (forall x :: x in a <==> x in b)
    ensures a == b
  {
    if a != [] {
      MembersCarryOver(a, b);
    }
    if b != [] {
      MembersCarryOver(b, a);
      LastsEqual(a, b);
      var m, n := |a| - 1, |b| - 1;
      forall x ensures x in a[..m] <==> x in b[..n] {
        DropLast(a, x);
        DropLast(b, x);
      }
      AscendingUnique(a[..m], b[..n]);
      assert a == a[..m] + [a[m]] && b == b[..n] + [b[n]];
    }
  }

  lemma MembersCarryOver(a: seq<string>, b: seq<string>)
    requires a != [] && (forall x :: x in a ==> x in b)
    ensures b != []
  {
    assert a[0] in b;
  }

  lemma LastsEqual(a: seq<string>, b: seq<string>)
    requires Ascending(a) && Ascending(b) && a != [] && b != [] && (forall x :: x in a <==> x in b)
    ensures a[|a| - 1] == b[|b| - 1]
  {
    var x, y := a[|a| - 1], b[|b| - 1];
    assert x in b && y in a;
    var i :| 0 <= i < |b| && b[i] == x;
    var j :| 0 <= j < |a| && a[j] == y;
    if i < |b| - 1 && j < |a| - 1 {
      AscendingPairs(b, i, |b| - 1);
      AscendingPairs(a, j, |a| - 1);
      LessTotal(x, y);
      assert false;
    }
  }

  lemma DropLast(a: seq<string>, x: string)
    requires Ascending(a) && a != []
    ensures x in a[..|a| - 1] <==> x in a && x != a[|a| - 1]
  {
    var m := |a| - 1;
    assert a == a[..m] + [a[m]];
    if x in a[..m] {
      var i :| 0 <= i < m && a[i] == x;
      AscendingPairs(a, i, m);
      LessTotal(x, x);
    }
  }

  // ----- the stream -----

  /** The bits of the float64 values: different values have different bits. */
  datatype Floats = Floats(bits: real -> nat, isFloat: real -> bool) {
    ghost predicate Faithful(x: real, y: real) {
      isFloat(x) && isFloat(y) ==> bits(x) < 0x1_0000_0000_0000_0000 && (bits(x) == bits(y) ==> x == y)
    }

    ghost predicate Lawful() {
      forall x, y :: Faithful(x, y)
    }

    ghost predicate Encodes(embedding: seq<real>) {
      forall i :: 0 <= i < |embedding| ==> isFloat(embedding[i])
    }
  }

  /** The k low bytes of n, lowest first. */
  function LittleEndian(n: nat, k: nat): (r: seq<int>)
    ensures |r| == k && forall i :: 0 <= i < k ==> 0 <= r[i] < 256
  {
    if k == 0 then [] else [n % 256] + LittleEndian(n / 256, k - 1)
  }

  function Pow256(k: nat): nat {
    if k == 0 then 1 else 256 * Pow256(k - 1)
  }

  /** The number that bytes stand for, the lowest first. */
  function FromBytes(bytes: seq<int>): int {
    if bytes == [] then 0 else bytes[0] + 256 * FromBytes(bytes[1..])
  }

  lemma {:induction false} LittleEndianReads(n: nat, k: nat)
    requires n < Pow256(k)
    ensures FromBytes(LittleEndian(n, k)) == n
  {
    if k > 0 {
      assert LittleEndian(n, k)[1..] == LittleEndian(n / 256, k - 1);
      LittleEndianReads(n / 256, k - 1);
    }
  }

  lemma LittleEndianInjective(n: nat, m: nat, k: nat)
    requires n < Pow256(k) && m < Pow256(k) && LittleEndian(n, k) == LittleEndian(m, k)
    ensures n == m
  {
    LittleEndianReads(n, k);
    LittleEndianReads(m, k);
  }

  function FloatBytes(f: Floats, embedding: seq<real>): (r: seq<int>)
    ensures |r| == 8 * |embedding|
  {
    if embedding == [] then []
    else FloatBytes(f, embedding[..|embedding| - 1]) + LittleEndian(f.bits(embedding[|embedding| - 1]), 8)
  }

  /** The bytes of an ASCII string. */
  function IdBytes(id: string): (r: seq<int>)
    ensures |r| == |id| && forall i :: 0 <= i < |id| ==> r[i] == id[i] as int
  {
    seq(|id|, i requires 0 <= i < |id| => id[i] as int)
  }

  /** What the digest reads: every ID with its embedding, in the order ids. */
  function Stream(f: Floats, embeddings: map<string, seq<real>>, ids: seq<string>): seq<int>
    requires forall id :: id in ids ==> id in embeddings
  {
    if ids == [] then []
    else
      var n := |ids| - 1;
      Stream(f, embeddings, ids[..n]) + IdBytes(ids[n]) + FloatBytes(f, embeddings[ids[n]])
  }

  // ----- unique decodability -----

  lemma {:induction false} FloatBytesInjective(f: Floats, a: seq<real>, b: seq<real>)
    requires f.Lawful() && f.Encodes(a) && f.Encodes(b) && |a| == |b|
    requires FloatBytes(f, a) == FloatBytes(f, b)
    ensures a == b
  {
    if a != [] {
      var n := |a| - 1;
      var x, y := FloatBytes(f, a[..n]), FloatBytes(f, b[..n]);
      assert FloatBytes(f, a)[..8 * n] == x && FloatBytes(f, b)[..8 * n] == y;
      assert FloatBytes(f, a)[8 * n..] == LittleEndian(f.bits(a[n]), 8);
      assert FloatBytes(f, b)[8 * n..] == LittleEndian(f.bits(b[n]), 8);
      FloatBytesInjective(f, a[..n], b[..n]);
      assert f.Faithful(a[n], b[n]) && f.Faithful(b[n], a[n]);
      Pow256Of8();
      LittleEndianInjective(f.bits(a[n]), f.bits(b[n]), 8);
      assert a == a[..n] + [a[n]] && b == b[..n] + [b[n]];
    }
  }

  lemma Pow256Of8()
    ensures Pow256(8) == 0x1_0000_0000_0000_0000
  {
    assert Pow256(4) == 0x1_0000_0000;
  }

  /** The letter that opens an issued ID occurs nowhere else in it. */
  lemma OnlyOneA(id: string, p: nat)
    requires Issued(id)
    ensures |id| >= 5 && id[0] == 'a'
    ensures 1 <= p < |id| ==> id[p] != 'a'
  {
    var n: nat :| id == IdOf(n);
    ValueOfDecimal(n);
    if 4 <= p < |id| {
      assert id[p] == Decimal(n)[p - 4];
    }
  }

  /** Read from the end, an issued ID ends where its first letter stands. */
  lemma IdTailUnique(a: seq<int>, x: string, b: seq<int>, y: string)
    requires Issued(x) && Issued(y) && |x| <= |y|
    requires a + IdBytes(x) == b + IdBytes(y)
    ensures a == b && x == y
  {
    var s := a + IdBytes(x);
    OnlyOneA(x, 0);
    OnlyOneA(y, |y| - |x|);
    assert |a| + |x| == |b| + |y|;
    assert s[|a|] == IdBytes(x)[0];
    assert s[|a|] == IdBytes(y)[|y| - |x|];
    assert |x| == |y|;
    forall i | 0 <= i < |x| ensures x[i] == y[i] {
      assert s[|a| + i] == IdBytes(x)[i] && s[|a| + i] == IdBytes(y)[i];
    }
    assert a == s[..|a|] && b == s[..|b|];
  }

  /** All listed positions are filed, with issued IDs and float embeddings of dimension d. */
  ghost predicate Uniform(f: Floats, embeddings: map<string, seq<real>>, ids: seq<string>, d: nat) {
    forall id :: id in ids ==> id in embeddings && Issued(id) && |embeddings[id]| == d && f.Encodes(embeddings[id])
  }

  lemma StreamNonEmpty(f: Floats, embeddings: map<string, seq<real>>, ids: seq<string>, d: nat)
    requires Uniform(f, embeddings, ids, d) && ids != []
    ensures Stream(f, embeddings, ids) != []
  {
    assert ids[|ids| - 1] in ids;
    OnlyOneA(ids[|ids| - 1], 0);
  }

  /** The last position of equal streams. */
  lemma LastOfStream(f: Floats, p: map<string, seq<real>>, ps: seq<string>, q: map<string, seq<real>>, qs: seq<string>, d: nat)
    requires f.Lawful() && Uniform(f, p, ps, d) && Uniform(f, q, qs, d) && ps != [] && qs != []
    requires Stream(f, p, ps) == Stream(f, q, qs)
    ensures ps[|ps| - 1] == qs[|qs| - 1] && ps[|ps| - 1] in p && qs[|qs| - 1] in q && p[ps[|ps| - 1]] == q[qs[|qs| - 1]]
    ensures Stream(f, p, ps[..|ps| - 1]) == Stream(f, q, qs[..|qs| - 1])
  {
    var x, y := ps[|ps| - 1], qs[|qs| - 1];
    assert x in ps && y in qs;
    var a, b := Stream(f, p, ps[..|ps| - 1]), Stream(f, q, qs[..|qs| - 1]);
    var s := Stream(f, p, ps);
    var k := |s| - 8 * d;
    assert s == (a + IdBytes(x)) + FloatBytes(f, p[x]) && s == (b + IdBytes(y)) + FloatBytes(f, q[y]);
    assert a + IdBytes(x) == s[..k] && b + IdBytes(y) == s[..k];
    assert FloatBytes(f, p[x]) == s[k..] && FloatBytes(f, q[y]) == s[k..];
    FloatBytesInjective(f, p[x], q[y]);
    if |x| <= |y| {
      IdTailUnique(a, x, b, y);
    } else {
      IdTailUnique(b, y, a, x);
    }
  }

  /** Streams over issued IDs and embeddings of one dimension decode uniquely,
      from the end, whatever the lengths of the IDs. */
  lemma {:induction false} StreamDecodes(f: Floats, p: map<string, seq<real>>, ps: seq<string>, q: map<string, seq<real>>, qs: seq<string>, d: nat)
    requires f.Lawful() && Uniform(f, p, ps, d) && Uniform(f, q, qs, d)
    requires Stream(f, p, ps) == Stream(f, q, qs)
    ensures ps == qs && forall id :: id in ps ==> p[id] == q[id]
  {
    if ps != [] {
      StreamNonEmpty(f, p, ps, d);
    }
    if qs != [] {
      StreamNonEmpty(f, q, qs, d);
      LastOfStream(f, p, ps, q, qs, d);
      StreamDecodes(f, p, ps[..|ps| - 1], q, qs[..|qs| - 1], d);
      SameFrontAndLast(ps, qs);
    }
  }

  lemma SameFrontAndLast(a: seq<string>, b: seq<string>)
    requires a != [] && b != [] && a[..|a| - 1] == b[..|b| - 1] && a[|a| - 1] == b[|b| - 1]
    ensures a == b
    ensures forall x :: x in a ==> x in a[..|a| - 1] || x == a[|a| - 1]
  {
    assert a == a[..|a| - 1] + [a[|a| - 1]] && b == b[..|b| - 1] + [b[|b| - 1]];
  }

  // ----- the version -----

  /** The IDs in ascending order: the one order that every listing sorts to. */
  ghost predicate SortedListing(ids: seq<string>, keys: set<string>) {
    Ascending(ids) && forall id :: id in ids <==> id in keys
  }

  lemma SortedListingUnique(a: seq<string>, b: seq<string>, keys: set<string>)
    requires SortedListing(a, keys) && SortedListing(b, keys)
    ensures a == b
  {
    AscendingUnique(a, b);
  }

  lemma {:induction false} SortedListingExists(keys: set<string>) returns (ids: seq<string>)
    ensures SortedListing(ids, keys)
    decreases |keys|
  {
    if keys == {} {
      ids := [];
    } else {
      var k :| k in keys;
      var rest := SortedListingExists(keys - {k});
      InsertAscending(k, rest);
      ids := Insert(k, rest);
    }
  }

  ghost function SortedIds(keys: set<string>): (ids: seq<string>)
    ensures SortedListing(ids, keys)
  {
    assert exists ids :: SortedListing(ids, keys) by {
      var ids := SortedListingExists(keys);
    }
    var ids :| SortedListing(ids, keys);
    ids
  }

  /** A digest with the float encoding it is fed. */
  datatype Digest = Digest(hash: seq<int> -> string, floats: Floats)

  ghost function StreamOf(h: Digest, embeddings: map<string, seq<real>>): seq<int> {
    Stream(h.floats, embeddings, SortedIds(embeddings.Keys))
  }

  ghost function Version(h: Digest, embeddings: map<string, seq<real>>): string {
    h.hash(StreamOf(h, embeddings))
  }

  /** The digest does not collide on the streams of these two. */
  ghost predicate NoCollision(h: Digest, p: map<string, seq<real>>, q: map<string, seq<real>>) {
    Version(h, p) == Version(h, q) ==> StreamOf(h, p) == StreamOf(h, q)
  }

  ghost predicate OneDimension(h: Digest, embeddings: map<string, seq<real>>, d: nat) {
    forall id :: id in embeddings ==> Issued(id) && |embeddings[id]| == d && h.floats.Encodes(embeddings[id])
  }

  /** Barring collisions, equal versions mean equal IDs with equal embeddings. */
  lemma VersionIdentifiesEmbeddings(h: Digest, p: map<string, seq<real>>, q: map<string, seq<real>>, d: nat)
    requires h.floats.Lawful() && OneDimension(h, p, d) && OneDimension(h, q, d) && NoCollision(h, p, q)
    ensures Version(h, p) == Version(h, q) <==> p == q
  {
    if Version(h, p) == Version(h, q) {
      StreamDecodes(h.floats, p, SortedIds(p.Keys), q, SortedIds(q.Keys), d);
      forall id ensures id in p <==> id in q {
        assert id in p.Keys <==> id in SortedIds(p.Keys);
        assert id in q.Keys <==> id in SortedIds(q.Keys);
      }
    }
  }

  function EmbeddingsOf(positions: map<string, Position>): map<string, seq<real>> {
    map id | id in positions :: positions[id].embedding
  }

  /** The sorted iteration is the sorted listing. */
  lemma SortIsSortedIds(iteration: seq<string>, keys: set<string>)
    requires Distinct(iteration) && forall id :: id in iteration <==> id in keys
    ensures Sort(iteration) == SortedIds(keys)
  {
    SortAscending(iteration);
    SortedListingUnique(Sort(iteration), SortedIds(keys), keys);
  }

  /** Collects the IDs in whatever order the map is iterated, sorts them, and
      digests the stream. The result does not depend on that order. */
  method ComputeVersion(h: Digest, positions: map<string, Position>, iteration: seq<string>) returns (version: string)
    requires Distinct(iteration) && forall id :: id in iteration <==> id in positions
    ensures version == Version(h, EmbeddingsOf(positions))
  {
    SortIsSortedIds(iteration, EmbeddingsOf(positions).Keys);
    var stream := WriteStream(h.floats, EmbeddingsOf(positions), Sort(iteration));
    version := h.hash(stream);
  }

  lemma StreamStep(f: Floats, embeddings: map<string, seq<real>>, ids: seq<string>, i: nat)
    requires i < |ids| && forall id :: id in ids ==> id in embeddings
    ensures ids[i] in embeddings
    ensures Stream(f, embeddings, ids[..i + 1]) == Stream(f, embeddings, ids[..i]) + IdBytes(ids[i]) + FloatBytes(f, embeddings[ids[i]])
  {
    assert ids[i] in ids;
    assert ids[..i + 1][..i] == ids[..i];
  }

  method WriteStream(f: Floats, embeddings: map<string, seq<real>>, ids: seq<string>) returns (stream: seq<int>)
    requires forall id :: id in ids ==> id in embeddings
    ensures stream == Stream(f, embeddings, ids)
  {
    stream := [];
    for i := 0 to |ids|
      invariant stream == Stream(f, embeddings, ids[..i])
    {
      StreamStep(f, embeddings, ids, i);
      stream := stream + IdBytes(ids[i]);
      var bytes := WriteFloats(f, embeddings[ids[i]]);
      stream := stream + bytes;
    }
    assert ids[..|ids|] == ids;
  }

  method WriteFloats(f: Floats, embedding: seq<real>) returns (bytes: seq<int>)
    ensures bytes == FloatBytes(f, embedding)
  {
    bytes := [];
    for i := 0 to |embedding|
      invariant bytes == FloatBytes(f, embedding[..i])
    {
      assert embedding[..i + 1][..i] == embedding[..i];
      bytes := bytes + LittleEndian(f.bits(embedding[i]), 8);
    }
    assert embedding[..|embedding|] == embedding;
  }
}
