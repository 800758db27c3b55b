/** Clients keep the embeddings in step with the server by version
    (handler/publisher.go, sdk-web/src/embedding-cache.ts): conditional
    requests as in RFC 9110, sections 13.1.2 and 15.4.5. */
module EmbeddingSync {
  import opened Wrappers
  import opened Positions
  import opened Versions
  import opened Sequences
  import opened Registry
  import opened RegistrySteps

  datatype Entry = Entry(id: string, name: string, embedding: seq<real>, bidPrice: real, sigma: real, currency: string)

  datatype Response = NotModified | Full(etag: string, entries: seq<Entry>) | Failure

  function ETag(version: string): string {
    "\"" + version + "\""
  }

  lemma ETagInjective(v: string, w: string)
    ensures ETag(v) == ETag(w) <==> v == w
  {
    assert ETag(v)[1..|ETag(v)| - 1] == v && ETag(w)[1..|ETag(w)| - 1] == w;
  }

  function EntryOf(p: Position): Entry {
    Entry(p.id, p.name, p.embedding, p.bidPrice, p.sigma, p.currency)
  }

  /** What a client is told of a position. */
  predicate Presents(e: Entry, p: Position) {
    && e.id == p.id && e.name == p.name && e.embedding == p.embedding && e.bidPrice == p.bidPrice && e.sigma == p.sigma
    && e.currency == p.currency
  }

  function EntriesOf(positions: map<string, Position>, ids: seq<string>): (r: seq<Entry>)
    requires forall id :: id in ids ==> id in positions
    ensures |r| == |ids|
  {
    if ids == [] then []
    else
      assert ids[|ids| - 1] in ids;
      EntriesOf(positions, ids[..|ids| - 1]) + [EntryOf(positions[ids[|ids| - 1]])]
  }

  /** What a client makes of a list of entries. */
  function Known(entries: seq<Entry>): map<string, seq<real>> {
    if entries == [] then map[]
    else Known(entries[..|entries| - 1])[entries[|entries| - 1].id := entries[|entries| - 1].embedding]
  }

  ghost predicate ListsSome(known: map<string, seq<real>>, positions: map<string, Position>, ids: seq<string>) {
    forall id :: (id in known <==> id in ids) && (id in known && id in positions ==> known[id] == positions[id].embedding)
  }

  lemma {:induction false} EntriesCarryEmbeddings(positions: map<string, Position>, ids: seq<string>)
    requires (forall id :: id in positions ==> positions[id].id == id) && (forall id :: id in ids ==> id in positions)
    ensures ListsSome(Known(EntriesOf(positions, ids)), positions, ids)
  {
    if ids != [] {
      var n := |ids| - 1;
      assert ids[n] in ids;
      EntriesCarryEmbeddings(positions, ids[..n]);
      assert ids == ids[..n] + [ids[n]];
      assert EntriesOf(positions, ids)[..n] == EntriesOf(positions, ids[..n]);
    }
  }

  /** A full listing tells a client exactly the server's embeddings. */
  lemma FullListingIsKnown(positions: map<string, Position>, ids: seq<string>)
    requires (forall id :: id in positions ==> positions[id].id == id) && (forall id :: id in ids <==> id in positions)
    ensures Known(EntriesOf(positions, ids)) == EmbeddingsOf(positions)
  {
    EntriesCarryEmbeddings(positions, ids);
  }

  // ----- the protocol -----

  type Embeddings = map<string, seq<real>>

  datatype Client = Client(known: Embeddings, etag: Option<string>)

  function Received(c: Client, resp: Response): Client {
    match resp
    case NotModified => c
    case Failure => c
    case Full(etag, entries) => Client(Known(entries), Some(etag))
  }

  /** asked is the version that the server read for an answer under way. */
  datatype State = State(server: Index, client: Client, asked: Option<string>)

  datatype Event = Server(step: Step) | Request | Answer | Lost

  /** The server asks the registry for its version; a client that has it is done. */
  ghost function Asked(h: Digest, s: State): State {
    var server := Stepped(h, s.server, Ask);
    State(server, s.client, if s.client.etag == Some(ETag(server.version)) then None else Some(server.version))
  }

  /** Any other gets the positions, read under another lock, with that version. */
  function Answered(s: State): State {
    if s.asked.None? then s
    else State(s.server, Client(EmbeddingsOf(s.server.positions), Some(ETag(s.asked.value))), None)
  }

  ghost function Next(h: Digest, s: State, e: Event): State {
    match e
    case Server(step) => s.(server := Stepped(h, s.server, step))
    case Request => Asked(h, s)
    case Answer => Answered(s)
    case Lost => s.(asked := None)
  }

  ghost function Run(h: Digest, start: map<string, Position>, events: seq<Event>): State {
    if events == [] then State(Index(start, ""), Client(map[], None), None)
    else Next(h, Run(h, start, events[..|events| - 1]), events[|events| - 1])
  }

  // ----- the server and the client -----

  /** A request and its answer; later and its iteration are what the registry
      holds when the positions are read. */
  method HandleEmbeddings(r: PositionRegistry, ifNoneMatch: Option<string>, iteration: seq<string>,
                          later: map<string, Position>, laterIteration: seq<string>) returns (resp: Response)
    requires Distinct(iteration) && forall id :: id in iteration <==> id in r.positions
    requires (forall id :: id in later ==> later[id].id == id) && forall id :: id in laterIteration <==> id in later
    modifies r`embeddingsVersion
    ensures forall known ::
              var s := Asked(r.digest, State(old(r.Held()), Client(known, ifNoneMatch), None));
              && r.Held() == s.server && (resp.NotModified? <==> s.asked.None?)
              && Received(s.client, resp) == Answered(s.(server := Index(later, ""))).client
    ensures resp.Full? ==>
              && resp.etag == "\"" + r.embeddingsVersion + "\"" && |resp.entries| == |laterIteration|
              && forall i :: 0 <= i < |laterIteration| ==> laterIteration[i] in later && Presents(resp.entries[i], later[laterIteration[i]])
    ensures resp.NotModified? <==> ifNoneMatch == Some("\"" + r.embeddingsVersion + "\"")
    ensures !resp.Failure?
  {
    var version := r.EmbeddingsVersion(iteration);
    var etag := ETag(version);
    if ifNoneMatch == Some(etag) {
      return NotModified;
    }
    var entries := ListEntries(later, laterIteration);
    FullListingIsKnown(later, laterIteration);
    return Full(etag, entries);
  }

  method ListEntries(positions: map<string, Position>, ids: seq<string>) returns (entries: seq<Entry>)
    requires forall id :: id in ids ==> id in positions
    ensures entries == EntriesOf(positions, ids)
    ensures |entries| == |ids| && forall i :: 0 <= i < |ids| ==> ids[i] in positions && Presents(entries[i], positions[ids[i]])
  {
    entries := [];
    for i := 0 to |ids|
      invariant entries == EntriesOf(positions, ids[..i])
      invariant |entries| == i && forall j :: 0 <= j < i ==> ids[j] in positions && Presents(entries[j], positions[ids[j]])
    {
      assert ids[..i + 1][..i] == ids[..i];
      assert ids[i] in ids;
      entries := entries + [EntryOf(positions[ids[i]])];
    }
    assert ids[..|ids|] == ids;
  }

  class EmbeddingCache {
    var embeddings: seq<Entry>
    var etag: Option<string>

    constructor ()
      ensures embeddings == [] && etag == None
    {
      embeddings, etag := [], None;
    }

    function View(): Client
      reads this
    {
      Client(Known(embeddings), etag)
    }

    /** A failed request changes nothing. */
    method Receive(resp: Response) returns (ok: bool)
      modifies this
      ensures View() == Received(old(View()), resp) && (ok <==> !resp.Failure?)
    {
      match resp {
        case NotModified => return true;
        case Failure => return false;
        case Full(tag, entries) =>
          embeddings := entries;
          etag := Some(tag);
          return true;
      }
    }
  }

  // ----- runs -----

  /** The state after the first n events, and what the server then holds. */
  ghost function After(h: Digest, start: map<string, Position>, events: seq<Event>, n: nat): State
    requires n <= |events|
  {
    Run(h, start, events[..n])
  }

  ghost function Content(h: Digest, start: map<string, Position>, events: seq<Event>, n: nat): Embeddings
    requires n <= |events|
  {
    EmbeddingsOf(After(h, start, events, n).server.positions)
  }

  /** The version is computed now. */
  predicate Computes(s: State, e: Event) {
    s.server.version == "" && (e == Request || e == Server(Ask))
  }

  /** The embeddings for which the cached version, if there is one, was computed. */
  ghost function Stood(h: Digest, start: map<string, Position>, events: seq<Event>, n: nat): Embeddings
    requires n <= |events|
  {
    if n == 0 then EmbeddingsOf(start)
    else if Computes(After(h, start, events, n - 1), events[n - 1]) then Content(h, start, events, n - 1)
    else Stood(h, start, events, n - 1)
  }

  lemma RunStep(h: Digest, start: map<string, Position>, events: seq<Event>, n: nat)
    requires n < |events|
    ensures After(h, start, events, n + 1) == Next(h, After(h, start, events, n), events[n])
  {
    assert events[..n + 1][..n] == events[..n];
  }

  ghost predicate VersionStands(h: Digest, x: Index, stood: Embeddings) {
    x.version == "" || x.version == Version(h, stood)
  }

  lemma StepStands(h: Digest, s: State, e: Event, stood: Embeddings)
    requires VersionStands(h, s.server, stood)
    ensures VersionStands(h, Next(h, s, e).server, if Computes(s, e) then EmbeddingsOf(s.server.positions) else stood)
  {
  }

  lemma {:induction false} VersionStood(h: Digest, start: map<string, Position>, events: seq<Event>, n: nat)
    requires n <= |events|
    ensures VersionStands(h, After(h, start, events, n).server, Stood(h, start, events, n))
  {
    if n > 0 {
      var k: nat := n - 1;
      VersionStood(h, start, events, k);
      RunStep(h, start, events, k);
      StepStands(h, After(h, start, events, k), events[k], Stood(h, start, events, k));
    }
  }

  lemma {:induction false} StoodWasContent(h: Digest, start: map<string, Position>, events: seq<Event>, n: nat) returns (k: nat)
    requires n <= |events|
    ensures k <= n && Stood(h, start, events, n) == Content(h, start, events, k)
  {
    if n == 0 {
      k := 0;
    } else if Computes(After(h, start, events, n - 1), events[n - 1]) {
      k := n - 1;
    } else {
      k := StoodWasContent(h, start, events, n - 1);
    }
  }

  /** The server answers a request with the version of what stood then. */
  lemma AnswersWhatStood(h: Digest, start: map<string, Position>, events: seq<Event>, n: nat)
    requires n < |events| && events[n].Request?
    ensures After(h, start, events, n + 1).server.version == Version(h, Stood(h, start, events, n + 1))
  {
    VersionStood(h, start, events, n);
    RunStep(h, start, events, n);
  }

  // ----- the last full answer -----

  predicate LastRequest(events: seq<Event>, i: nat, j: nat)
    requires j <= |events|
  {
    i < j && events[i].Request? && forall k :: i < k < j ==> !events[k].Request?
  }

  ghost predicate FullAt(h: Digest, start: map<string, Position>, events: seq<Event>, j: nat)
    requires j < |events|
  {
    events[j].Answer? && After(h, start, events, j).asked.Some?
  }

  /** The last full answer before event n is event j, to request i. */
  ghost predicate LastFull(h: Digest, start: map<string, Position>, events: seq<Event>, i: nat, j: nat, n: nat)
    requires n <= |events|
  {
    j < n && FullAt(h, start, events, j) && LastRequest(events, i, j) && forall k :: j < k < n ==> !FullAt(h, start, events, k)
  }

  /** An answer under way carries the version of what stood when it was asked for. */
  ghost predicate AskedBy(h: Digest, start: map<string, Position>, events: seq<Event>, n: nat, i: nat)
    requires n <= |events|
  {
    LastRequest(events, i, n) && After(h, start, events, n).asked == Some(Version(h, Stood(h, start, events, i + 1)))
  }

  /** The client holds what its last full answer carried, with that version. */
  ghost predicate HoldsAnswer(h: Digest, start: map<string, Position>, events: seq<Event>, n: nat, last: Option<(nat, nat)>)
    requires n <= |events|
  {
    var c := After(h, start, events, n).client;
    match last
    case None => c == Client(map[], None) && forall k :: 0 <= k < n ==> !FullAt(h, start, events, k)
    case Some((i, j)) =>
      LastFull(h, start, events, i, j, n)
      && c == Client(Content(h, start, events, j), Some(ETag(Version(h, Stood(h, start, events, i + 1)))))
  }

  lemma StepAsked(h: Digest, s: State, e: Event)
    requires Next(h, s, e).asked.Some?
    ensures if e.Request? then Next(h, s, e).asked == Some(Next(h, s, e).server.version) else Next(h, s, e).asked == s.asked
  {
  }

  lemma {:induction false} WhoAsked(h: Digest, start: map<string, Position>, events: seq<Event>, n: nat) returns (i: nat)
    requires n <= |events| && After(h, start, events, n).asked.Some?
    ensures AskedBy(h, start, events, n, i)
  {
    var k: nat := n - 1;
    RunStep(h, start, events, k);
    StepAsked(h, After(h, start, events, k), events[k]);
    if events[k].Request? {
      AnswersWhatStood(h, start, events, k);
      i := k;
    } else {
      i := WhoAsked(h, start, events, k);
    }
  }

  lemma AnswerIsHeld(h: Digest, start: map<string, Position>, events: seq<Event>, i: nat, n: nat)
    requires n < |events| && FullAt(h, start, events, n) && AskedBy(h, start, events, n, i)
    ensures HoldsAnswer(h, start, events, n + 1, Some((i, n)))
  {
    RunStep(h, start, events, n);
  }

  lemma OtherwiseAnswerIsKept(h: Digest, start: map<string, Position>, events: seq<Event>, n: nat, last: Option<(nat, nat)>)
    requires n < |events| && !FullAt(h, start, events, n) && HoldsAnswer(h, start, events, n, last)
    ensures HoldsAnswer(h, start, events, n + 1, last)
  {
    RunStep(h, start, events, n);
  }

  lemma {:induction false} LastAnswer(h: Digest, start: map<string, Position>, events: seq<Event>, n: nat) returns (last: Option<(nat, nat)>)
    requires n <= |events|
    ensures HoldsAnswer(h, start, events, n, last)
  {
    if n == 0 {
      last := None;
    } else if FullAt(h, start, events, n - 1) {
      var i := WhoAsked(h, start, events, n - 1);
      AnswerIsHeld(h, start, events, i, n - 1);
      last := Some((i, n - 1));
    } else {
      last := LastAnswer(h, start, events, n - 1);
      OtherwiseAnswerIsKept(h, start, events, n - 1, last);
    }
  }

  lemma LastFullUnique(h: Digest, start: map<string, Position>, events: seq<Event>, i: nat, j: nat, k: nat, l: nat, n: nat)
    requires n <= |events| && LastFull(h, start, events, i, j, n) && LastFull(h, start, events, k, l, n)
    ensures i == k && j == l
  {
  }

  // ----- when clients agree with the server -----

  /** Issued IDs, one dimension, and no collision among all that the server ever held. */
  ghost predicate WellVersioned(h: Digest, start: map<string, Position>, events: seq<Event>, d: nat) {
    forall i, j :: 0 <= i <= |events| && 0 <= j <= |events| ==>
                     Comparable(h, Content(h, start, events, i), Content(h, start, events, j), d)
  }

  /** The tag of a client that has one is the version of source. */
  ghost predicate TaggedBy(h: Digest, c: Client, source: Embeddings) {
    c.etag.Some? ==> c.etag == Some(ETag(Version(h, source)))
  }

  /** A request to a server whose version stands for some embeddings, by a client
      whose tag stands for some, is answered 304 exactly if they are the same;
      otherwise the answer leaves the client with what the server holds by then,
      under the server's version. */
  lemma NotModifiedIff(h: Digest, s: State, source: Embeddings, stood: Embeddings, later: Index, d: nat)
    requires Comparable(h, source, stood, d) && TaggedBy(h, s.client, source)
    requires Stepped(h, s.server, Ask).version == Version(h, stood)
    ensures Asked(h, s).asked.None? <==> s.client.etag.Some? && source == stood
    ensures var c := Answered(Asked(h, s).(server := later)).client;
            if s.client.etag.Some? && source == stood then c == s.client
            else c.known == EmbeddingsOf(later.positions) && TaggedBy(h, c, stood)
  {
    VersionIdentifiesEmbeddings(h, source, stood, d);
    ETagInjective(Version(h, source), Version(h, stood));
  }

  /** A sync ends with a 304 or with a full answer. */
  ghost predicate EndsAt(h: Digest, start: map<string, Position>, events: seq<Event>, n: nat)
    requires n < |events|
  {
    (events[n].Request? && After(h, start, events, n + 1).asked.None?) || FullAt(h, start, events, n)
  }

  ghost predicate AgreesAfter(h: Digest, start: map<string, Position>, events: seq<Event>, n: nat)
    requires n < |events|
  {
    After(h, start, events, n + 1).client.known == Content(h, start, events, n + 1)
  }

  /** Request n brings nothing new, wrongly: the server's version stands for the
      same embeddings as it did for the last full answer, which carried others
      than the server's. */
  ghost predicate Misses(h: Digest, start: map<string, Position>, events: seq<Event>, n: nat, i: nat, j: nat)
    requires n < |events|
  {
    && events[n].Request? && LastFull(h, start, events, i, j, n)
    && Stood(h, start, events, i + 1) == Stood(h, start, events, n + 1)
    && Content(h, start, events, j) != Content(h, start, events, n)
  }

  lemma StoodComparable(h: Digest, start: map<string, Position>, events: seq<Event>, d: nat, i: nat, j: nat)
    requires i <= |events| && j <= |events| && WellVersioned(h, start, events, d)
    ensures Comparable(h, Stood(h, start, events, i), Stood(h, start, events, j), d)
  {
    var k := StoodWasContent(h, start, events, i);
    var l := StoodWasContent(h, start, events, j);
  }

  lemma TaggedRequestEndsIff(h: Digest, s: State, source: Embeddings, stood: Embeddings, d: nat)
    requires Comparable(h, source, stood, d) && s.client.etag == Some(ETag(Version(h, source)))
    requires Next(h, s, Request).server.version == Version(h, stood)
    ensures Next(h, s, Request).asked.None? <==> source == stood
  {
    NotModifiedIff(h, s, source, stood, s.server, d);
  }

  lemma HolderIsTagged(h: Digest, start: map<string, Position>, events: seq<Event>, n: nat, i: nat, j: nat, source: Embeddings)
    requires n <= |events| && HoldsAnswer(h, start, events, n, Some((i, j))) && source == Stood(h, start, events, i + 1)
    ensures After(h, start, events, n).client.etag == Some(ETag(Version(h, source)))
  {
  }

  lemma RequestEndsIff(h: Digest, start: map<string, Position>, events: seq<Event>, n: nat, source: Embeddings, stood: Embeddings, d: nat)
    requires n < |events| && events[n].Request? && stood == Stood(h, start, events, n + 1) && Comparable(h, source, stood, d)
    requires After(h, start, events, n).client.etag == Some(ETag(Version(h, source)))
    ensures EndsAt(h, start, events, n) <==> source == stood
  {
    RunStep(h, start, events, n);
    AnswersWhatStood(h, start, events, n);
    TaggedRequestEndsIff(h, After(h, start, events, n), source, stood, d);
  }

  lemma EndsIffStood(h: Digest, start: map<string, Position>, events: seq<Event>, d: nat, n: nat, i: nat, j: nat)
    requires n < |events| && events[n].Request? && WellVersioned(h, start, events, d)
    requires HoldsAnswer(h, start, events, n, Some((i, j)))
    ensures EndsAt(h, start, events, n) <==> Stood(h, start, events, i + 1) == Stood(h, start, events, n + 1)
  {
    var source, stood := Stood(h, start, events, i + 1), Stood(h, start, events, n + 1);
    StoodComparable(h, start, events, d, i + 1, n + 1);
    HolderIsTagged(h, start, events, n, i, j, source);
    RequestEndsIff(h, start, events, n, source, stood, d);
  }

  lemma RequestMovesNothing(h: Digest, s: State)
    ensures Next(h, s, Request).client == s.client && Next(h, s, Request).server.positions == s.server.positions
  {
  }

  lemma AgreesIffSameContent(h: Digest, start: map<string, Position>, events: seq<Event>, n: nat, i: nat, j: nat)
    requires n < |events| && events[n].Request? && HoldsAnswer(h, start, events, n, Some((i, j)))
    ensures AgreesAfter(h, start, events, n) <==> Content(h, start, events, j) == Content(h, start, events, n)
  {
    RunStep(h, start, events, n);
    RequestMovesNothing(h, After(h, start, events, n));
  }

  /** Over any interleaving of the registry's lock-sized steps with requests,
      answers and losses: a sync ends with other embeddings than the server's
      exactly if it is a 304 under a version that stands for the same embeddings
      as at the last full answer, which carried others than the server's. */
  lemma SyncedClientsAgreeIff(h: Digest, start: map<string, Position>, events: seq<Event>, d: nat, n: nat)
    requires n < |events| && WellVersioned(h, start, events, d)
    ensures EndsAt(h, start, events, n) && !AgreesAfter(h, start, events, n) <==>
            exists i: nat, j: nat :: Misses(h, start, events, n, i, j)
  {
    RunStep(h, start, events, n);
    if events[n].Request? {
      var last := LastAnswer(h, start, events, n);
      if last.Some? {
        var (i, j) := last.value;
        EndsIffStood(h, start, events, d, n, i, j);
        AgreesIffSameContent(h, start, events, n, i, j);
        forall k: nat, l: nat | Misses(h, start, events, n, k, l) ensures k == i && l == j {
          LastFullUnique(h, start, events, i, j, k, l, n);
        }
        assert EndsAt(h, start, events, n) && !AgreesAfter(h, start, events, n) <==> Misses(h, start, events, n, i, j);
      }
    }
  }

  /** No second write of a group changed, before event n, what the cached version stands for. */
  ghost predicate CacheKept(h: Digest, start: map<string, Position>, events: seq<Event>, n: nat)
    requires n <= |events|
  {
    forall k :: 0 <= k < n && events[k].Server? ==> KeepsCache(After(h, start, events, k).server, events[k].step)
  }

  lemma {:induction false} KeptCacheIsCoherent(h: Digest, start: map<string, Position>, events: seq<Event>, d: nat, n: nat)
    requires n <= |events| && WellVersioned(h, start, events, d) && CacheKept(h, start, events, n)
    ensures Coherent(h, After(h, start, events, n).server)
  {
    if n > 0 {
      var k: nat := n - 1;
      KeptCacheIsCoherent(h, start, events, d, k);
      RunStep(h, start, events, k);
      assert Comparable(h, Content(h, start, events, k), Content(h, start, events, n), d);
      if events[k].Server? {
        StepKeepsCacheIff(h, After(h, start, events, k).server, events[k].step, d);
      }
    }
  }

  lemma CoherentStoodIsContent(h: Digest, start: map<string, Position>, events: seq<Event>, d: nat, n: nat)
    requires n < |events| && events[n].Request? && WellVersioned(h, start, events, d) && CacheKept(h, start, events, n)
    ensures Stood(h, start, events, n + 1) == Content(h, start, events, n)
  {
    KeptCacheIsCoherent(h, start, events, d, n);
    VersionStood(h, start, events, n);
    var k := StoodWasContent(h, start, events, n);
    VersionIdentifiesEmbeddings(h, Content(h, start, events, k), Content(h, start, events, n), d);
  }

  /** So a sync agrees if no group's second write ever changed what the cached
      version stands for, and nothing moved between the two reads for the last
      full answer. */
  lemma UntornSyncsAgree(h: Digest, start: map<string, Position>, events: seq<Event>, d: nat, n: nat)
    requires n < |events| && EndsAt(h, start, events, n) && WellVersioned(h, start, events, d) && CacheKept(h, start, events, n)
    requires forall i: nat, j: nat :: LastFull(h, start, events, i, j, n) ==> Content(h, start, events, i) == Content(h, start, events, j)
    ensures AgreesAfter(h, start, events, n)
  {
    SyncedClientsAgreeIff(h, start, events, d, n);
    forall i: nat, j: nat | LastFull(h, start, events, i, j, n) && events[n].Request? ensures !Misses(h, start, events, n, i, j) {
      CoherentStoodIsContent(h, start, events, d, i);
      CoherentStoodIsContent(h, start, events, d, n);
    }
  }

  // ----- two runs on which a client goes stale -----

  lemma RunAppend(h: Digest, start: map<string, Position>, events: seq<Event>, e: Event)
    ensures Run(h, start, events + [e]) == Next(h, Run(h, start, events), e)
  {
    assert (events + [e])[..|events|] == events;
  }

  /** What undoes the write of a position. */
  function Undo(positions: map<string, Position>, p: Position): Step {
    if p.id in positions then Put(positions[p.id]) else Remove(p.id)
  }

  /** p is written between the two reads for an answer, and taken back later. */
  function TornRead(start: map<string, Position>, p: Position): seq<Event> {
    [] + [Request] + [Server(Put(p))] + [Answer] + [Server(Undo(start, p))] + [Request]
  }

  lemma TornReadRuns(h: Digest, start: map<string, Position>, p: Position)
    requires forall id :: id in start ==> start[id].id == id
    ensures var v := Version(h, EmbeddingsOf(start));
            Run(h, start, TornRead(start, p)) == State(Index(start, v), Client(EmbeddingsOf(start[p.id := p]), Some(ETag(v))), None)
  {
    var v := Version(h, EmbeddingsOf(start));
    var events := [] + [Request];
    RunAppend(h, start, [], Request);
    assert Run(h, start, events) == State(Index(start, v), Client(map[], None), Some(v));
    RunAppend(h, start, events, Server(Put(p)));
    RunAppend(h, start, events + [Server(Put(p))], Answer);
    events := events + [Server(Put(p))] + [Answer];
    RunAppend(h, start, events, Server(Undo(start, p)));
    assert Apply(start[p.id := p], Undo(start, p)) == start;
    RunAppend(h, start, events + [Server(Undo(start, p))], Request);
  }

  /** A torn read goes stale: the client is left with p's embedding under the
      version from before, and once p is taken back, every sync answers 304. */
  lemma TornReadStaysStale(h: Digest, start: map<string, Position>, p: Position)
    requires forall id :: id in start ==> start[id].id == id
    requires p.id in start ==> start[p.id].embedding != p.embedding
    ensures var s := Run(h, start, TornRead(start, p));
            && s.asked == None && s.server.positions == start
            && s.client.known != EmbeddingsOf(start) && s.client.known == EmbeddingsOf(start[p.id := p])
            && (NeverEmpty(h) ==> Next(h, s, Request) == s)
  {
    TornReadRuns(h, start, p);
    SameEmbeddingsIff(start, p);
  }

  /** A group's member is deleted between its two writes, and a client syncs,
      with nothing moving between the two reads, before the second. */
  function OvertakenSync(p: Position): seq<Event> {
    [] + [Server(Put(p.(budgetId := "")))] + [Server(Drop(p.id))] + [Request] + [Answer] + [Server(SecondWrite(p))] + [Request]
  }

  lemma OvertakenSyncRuns(h: Digest, start: map<string, Position>, p: Position)
    requires NeverEmpty(h) && p.id !in start && (forall id :: id in start ==> start[id].budgetId != p.id)
    ensures var v := Version(h, EmbeddingsOf(start));
            Run(h, start, OvertakenSync(p)) == State(Index(start[p.id := p], v), Client(EmbeddingsOf(start), Some(ETag(v))), None)
  {
    var v, q := Version(h, EmbeddingsOf(start)), p.(budgetId := "");
    var events := [] + [Server(Put(q))];
    RunAppend(h, start, [], Server(Put(q)));
    RunAppend(h, start, events, Server(Drop(p.id)));
    events := events + [Server(Drop(p.id))];
    assert Apply(start[p.id := q], Drop(p.id)) == start;
    RunAppend(h, start, events, Request);
    RunAppend(h, start, events + [Request], Answer);
    events := events + [Request] + [Answer];
    assert Run(h, start, events) == State(Index(start, v), Client(EmbeddingsOf(start), Some(ETag(v))), None);
    RunAppend(h, start, events, Server(SecondWrite(p)));
    RunAppend(h, start, events + [Server(SecondWrite(p))], Request);
  }

  /** The member stays unknown to the client, under 304, though no read was torn. */
  lemma OvertakenMemberStaysUnknown(h: Digest, start: map<string, Position>, p: Position)
    requires NeverEmpty(h) && p.id !in start && (forall id :: id in start ==> start[id].budgetId != p.id)
    ensures var s := Run(h, start, OvertakenSync(p));
            s.asked == None && p.id in s.server.positions && p.id !in s.client.known && Next(h, s, Request) == s
  {
    OvertakenSyncRuns(h, start, p);
  }
}
