/** Comma-separated keyword lists (handler/openrtb.go) and the keyword hygiene
    of imported campaigns (platform/registry.go). */
module Keywords {
  import opened Sequences

  /** unicode.IsSpace. */
  predicate IsSpace(c: char) {
    || '\t' <= c <= '\r' || c == ' ' || c == '\U{0085}' || c == '\U{00A0}' || c == '\U{1680}'
    || '\U{2000}' <= c <= '\U{200A}' || c == '\U{2028}' || c == '\U{2029}' || c == '\U{202F}' || c == '\U{205F}' || c == '\U{3000}'
  }

  /** The code points of white space. */
  lemma SpaceCodes(c: char)
    ensures IsSpace(c) <==>
            c as int in {9, 10, 11, 12, 13, 32, 133, 160, 5760, 8192, 8193, 8194, 8195, 8196, 8197, 8198, 8199, 8200, 8201, 8202,
                         8232, 8233, 8239, 8287, 12288}
  {
  }

  predicate IsTrimmed(s: string) {
    s == "" || (!IsSpace(s[0]) && !IsSpace(s[|s| - 1]))
  }

  function TrimLeft(s: string): (r: string)
    ensures r == "" || !IsSpace(r[0])
    ensures |r| <= |s| && r == s[|s| - |r|..]
  {
    if s != "" && IsSpace(s[0]) then TrimLeft(s[1..]) else s
  }

  function TrimRight(s: string): (r: string)
    ensures r == "" || !IsSpace(r[|r| - 1])
    ensures |r| <= |s| && r == s[..|r|]
  {
    if s != "" && IsSpace(s[|s| - 1]) then TrimRight(s[..|s| - 1]) else s
  }

  function Trim(s: string): (r: string)
    ensures IsTrimmed(r)
    ensures IsTrimmed(s) ==> r == s
  {
    TrimRight(TrimLeft(s))
  }

  predicate AllSpace(s: string) {
    forall i :: 0 <= i < |s| ==> IsSpace(s[i])
  }

  lemma {:induction false} TrimLeftDrops(s: string)
    ensures AllSpace(s[..|s| - |TrimLeft(s)|])
  {
    if s != "" && IsSpace(s[0]) {
      TrimLeftDrops(s[1..]);
      var n := |s| - |TrimLeft(s)|;
      assert s[..n] == [s[0]] + s[1..][..n - 1];
    }
  }

  lemma {:induction false} TrimRightDrops(s: string)
    ensures AllSpace(s[|TrimRight(s)|..])
  {
    if s != "" && IsSpace(s[|s| - 1]) {
      TrimRightDrops(s[..|s| - 1]);
      var n := |TrimRight(s)|;
      assert s[n..] == s[..|s| - 1][n..] + [s[|s| - 1]];
    }
  }

  /** Trimming takes nothing but space from both ends, and all of it. */
  lemma TrimDropsOnlySpace(s: string) returns (left: string, right: string)
    ensures s == left + Trim(s) + right && AllSpace(left) && AllSpace(right) && IsTrimmed(Trim(s))
  {
    var t := TrimLeft(s);
    left := s[..|s| - |t|];
    right := TakenRight(t);
    TrimLeftDrops(s);
    assert s == left + t;
    JoinThree(s, left, t, TrimRight(t), right);
  }

  lemma TakenRight(t: string) returns (right: string)
    ensures t == TrimRight(t) + right && AllSpace(right)
  {
    right := t[|TrimRight(t)|..];
    TrimRightDrops(t);
  }

  lemma JoinThree(s: string, left: string, t: string, middle: string, right: string)
    requires s == left + t && t == middle + right
    ensures s == left + middle + right
  {
  }

  lemma TrimAddsNothing(s: string, c: char)
    ensures c in Trim(s) ==> c in s
  {
  }

  /** strings.Split with a comma: one part more than there are commas. */
  function Split(s: string): (r: seq<string>)
    ensures |r| >= 1
    ensures forall i :: 0 <= i < |r| ==> ',' !in r[i]
  {
    if s == "" then [""]
    else
      var r := Split(s[1..]);
      if s[0] == ',' then [""] + r else [[s[0]] + r[0]] + r[1..]
  }

  /** The parts with commas between them. */
  function WithCommas(parts: seq<string>): string {
    if |parts| == 0 then "" else if |parts| == 1 then parts[0] else parts[0] + "," + WithCommas(parts[1..])
  }

  /** Splitting takes out the commas and nothing else. */
  lemma {:induction false} SplitTakesCommas(s: string)
    ensures WithCommas(Split(s)) == s
  {
    if s != "" {
      var r := Split(s[1..]);
      SplitTakesCommas(s[1..]);
      if s[0] == ',' {
        assert ([""] + r)[1..] == r;
        assert s == "," + s[1..];
      } else {
        assert ([[s[0]] + r[0]] + r[1..])[1..] == r[1..];
        assert s == [s[0]] + s[1..];
        if |r| > 1 {
          assert [s[0]] + (r[0] + "," + WithCommas(r[1..])) == [s[0]] + r[0] + "," + WithCommas(r[1..]);
        }
      }
    }
  }

  /** strings.Join with a comma and a space. */
  function Join(ks: seq<string>): string {
    if |ks| == 0 then "" else if |ks| == 1 then ks[0] else ks[0] + ", " + Join(ks[1..])
  }

  function TrimAll(parts: seq<string>): (r: seq<string>)
    ensures |r| == |parts| && forall i :: 0 <= i < |parts| ==> r[i] == Trim(parts[i])
  {
    seq(|parts|, i requires 0 <= i < |parts| => Trim(parts[i]))
  }

  /** Without empty entries, each entry where it first occurs. */
  function Unique(ks: seq<string>): seq<string> {
    if ks == [] then []
    else
      var out, k := Unique(ks[..|ks| - 1]), ks[|ks| - 1];
      if k == "" || k in out then out else out + [k]
  }

  lemma UniqueStep(ks: seq<string>, i: nat)
    requires i < |ks|
    ensures var out := Unique(ks[..i]);
            Unique(ks[..i + 1]) == if ks[i] == "" || ks[i] in out then out else out + [ks[i]]
  {
    assert ks[..i + 1][..i] == ks[..i];
  }

  function Clean(parts: seq<string>): seq<string> {
    Unique(TrimAll(parts))
  }

  method CleanList(parts: seq<string>) returns (out: seq<string>)
    ensures out == Clean(parts)
  {
    ghost var ks := TrimAll(parts);
    out := [];
    var seen: set<string> := {};
    for i := 0 to |parts|
      invariant out == Unique(ks[..i])
      invariant forall k :: k in seen <==> k in out
    {
      UniqueStep(ks, i);
      var k := Trim(parts[i]);
      if k == "" || k in seen {
        continue;
      }
      seen := seen + {k};
      out := out + [k];
    }
    assert ks[..|parts|] == ks;
  }

  method SplitKeywords(s: string) returns (out: seq<string>)
    ensures out == Clean(Split(s))
  {
    out := CleanList(Split(s));
  }

  // ----- what is in a cleaned list -----

  /** The first position of k, or the length. */
  function FirstAt(ks: seq<string>, k: string): (r: nat)
    ensures r <= |ks| && (r < |ks| ==> ks[r] == k)
    ensures forall i :: 0 <= i < r ==> ks[i] != k
  {
    if ks == [] then 0
    else
      var n := |ks| - 1;
      var f := FirstAt(ks[..n], k);
      if f < n || ks[n] == k then f else n + 1
  }

  /** The first positions ascend along out. */
  predicate InFirstOrder(out: seq<string>, ks: seq<string>) {
    forall i, j :: 0 <= i < j < |out| ==> FirstAt(ks, out[i]) < FirstAt(ks, out[j])
  }

  /** A cleaned list holds exactly the trimmed non-empty parts, each once, in
      the order in which they first occur. */
  lemma {:induction false} CleanExactly(ks: seq<string>)
    ensures Distinct(Unique(ks)) && InFirstOrder(Unique(ks), ks)
    ensures forall k :: k in Unique(ks) <==> k != "" && k in ks
  {
    if ks != [] {
      var n := |ks| - 1;
      var out := Unique(ks[..n]);
      CleanExactly(ks[..n]);
      assert ks == ks[..n] + [ks[n]];
      forall i | 0 <= i < |out| ensures FirstAt(ks, out[i]) == FirstAt(ks[..n], out[i]) < n {
        assert out[i] in out;
      }
      if ks[n] != "" && ks[n] !in out {
        assert ks[n] !in ks[..n];
        assert FirstAt(ks, ks[n]) == n;
      }
    }
  }

  /** A list as splitKeywords delivers it. */
  predicate IsKeywordList(ks: seq<string>) {
    Distinct(ks) && forall i :: 0 <= i < |ks| ==> ks[i] != "" && IsTrimmed(ks[i]) && ',' !in ks[i]
  }

  lemma SplitYieldsKeywordList(s: string)
    ensures IsKeywordList(Clean(Split(s)))
  {
    var ks := TrimAll(Split(s));
    CleanExactly(ks);
    forall i | 0 <= i < |Unique(ks)| ensures Unique(ks)[i] != "" && IsTrimmed(Unique(ks)[i]) && ',' !in Unique(ks)[i] {
      var k := Unique(ks)[i];
      assert k in Unique(ks);
      var f :| 0 <= f < |ks| && ks[f] == k;
      TrimAddsNothing(Split(s)[f], ',');
    }
  }

  // ----- the round trip -----

  lemma {:induction false} SplitAtComma(a: string, b: string)
    requires ',' !in a
    ensures Split(a + "," + b) == [a] + Split(b)
  {
    if a == "" {
      assert ("" + "," + b)[1..] == b;
    } else {
      assert (a + "," + b)[1..] == a[1..] + "," + b;
      SplitAtComma(a[1..], b);
      assert [a[0]] + a[1..] == a;
    }
  }

  lemma {:induction false} SplitSingle(a: string)
    requires ',' !in a
    ensures Split(a) == [a]
  {
    if a != "" {
      SplitSingle(a[1..]);
      assert [a[0]] + a[1..] == a;
    }
  }

  /** A leading space stays with the first part. */
  lemma SplitAfterSpace(s: string)
    ensures Split(" " + s) == [" " + Split(s)[0]] + Split(s)[1..]
  {
    assert (" " + s)[1..] == s && (" " + s)[0] == ' ';
  }

  /** Every part after the first carries the space of the separator. */
  function Spaced(ks: seq<string>): (r: seq<string>)
    ensures |r| == |ks| && forall i :: 0 <= i < |ks| ==> r[i] == if i == 0 then ks[0] else " " + ks[i]
  {
    seq(|ks|, i requires 0 <= i < |ks| => if i == 0 then ks[0] else " " + ks[i])
  }

  predicate CommaFree(ks: seq<string>) {
    forall i :: 0 <= i < |ks| ==> ',' !in ks[i]
  }

  lemma {:induction false} SplitOfJoin(ks: seq<string>)
    requires ks != [] && CommaFree(ks)
    ensures Split(Join(ks)) == Spaced(ks)
  {
    if |ks| == 1 {
      SplitSingle(ks[0]);
    } else {
      var rest := Join(ks[1..]);
      SplitOfJoin(ks[1..]);
      assert ks[0] + ", " + rest == ks[0] + "," + (" " + rest);
      SplitAtComma(ks[0], " " + rest);
      SplitAfterSpace(rest);
      SpacedTail(ks);
    }
  }

  lemma SpacedTail(ks: seq<string>)
    requires |ks| > 1
    ensures var tail := Spaced(ks[1..]); Spaced(ks) == [ks[0]] + ([" " + tail[0]] + tail[1..])
  {
  }

  lemma TrimDropsSpace(k: string)
    requires k != "" && IsTrimmed(k)
    ensures Trim(" " + k) == k
  {
    assert (" " + k)[0] == ' ' && (" " + k)[1..] == k;
    assert TrimLeft(" " + k) == TrimLeft(k) == k;
  }

  lemma {:induction false} UniqueOfDistinct(ks: seq<string>)
    requires Distinct(ks) && forall i :: 0 <= i < |ks| ==> ks[i] != ""
    ensures Unique(ks) == ks
  {
    if ks != [] {
      var n := |ks| - 1;
      UniqueOfDistinct(ks[..n]);
      assert ks == ks[..n] + [ks[n]];
    }
  }

  /** Joining two lists puts a comma and a space between what each of them gives. */
  lemma {:induction false} JoinConcat(a: seq<string>, b: seq<string>)
    requires a != [] && b != []
    ensures Join(a + b) == Join(a) + ", " + Join(b)
  {
    if |a| == 1 {
      assert (a + b)[1..] == b && (a + b)[0] == a[0];
    } else {
      assert (a + b)[1..] == a[1..] + b;
      JoinConcat(a[1..], b);
      assert a[0] + ", " + (Join(a[1..]) + ", " + Join(b)) == a[0] + ", " + Join(a[1..]) + ", " + Join(b);
    }
  }

  /** Splitting the logged form of a keyword list gives the list back. */
  lemma JoinRoundTrips(ks: seq<string>)
    requires IsKeywordList(ks)
    ensures Clean(Split(Join(ks))) == ks
  {
    if ks == [] {
      assert TrimAll([""]) == [""] && Unique([""]) == [];
    } else {
      JoinedPartsTrim(ks);
      UniqueOfDistinct(ks);
    }
  }

  lemma JoinedPartsTrim(ks: seq<string>)
    requires IsKeywordList(ks) && ks != []
    ensures TrimAll(Split(Join(ks))) == ks
  {
    SplitOfJoin(ks);
    var parts := Split(Join(ks));
    forall i | 0 <= i < |ks| ensures Trim(parts[i]) == ks[i] {
      SpacedTrims(parts[i], ks[i]);
    }
  }

  lemma SpacedTrims(part: string, k: string)
    requires k != "" && IsTrimmed(k) && (part == k || part == " " + k)
    ensures Trim(part) == k
  {
    TrimDropsSpace(k);
  }

  /** So logging the keywords of any request and splitting them again loses nothing. */
  lemma LoggedKeywordsRoundTrip(s: string)
    ensures Clean(Split(Join(Clean(Split(s))))) == Clean(Split(s))
  {
    SplitYieldsKeywordList(s);
    JoinRoundTrips(Clean(Split(s)));
  }
}
