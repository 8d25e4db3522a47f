/** The service layer: the reciter catalogue, the chapter audio address, the
    range-support classifier, the per-ayah availability probe, the per-ayah
    fetch with retries, and blob concatenation.

    Network traffic is data here. A `Network` gives the reply to each request
    an operation issues, numbered from the operation's first request: the
    reply to request number `k` is `net(k)`. Every operation that talks to the
    network takes the number `n` of its first request and reports the
    requests it issued, so callers can chain operations. */
module QuranService {
  import opened Results
  import opened Text
  import opened Types

  type Byte = bv8
  type Bytes = seq<Byte>

  datatype HttpMethod = Head | Get

  datatype Request = Request(verb: HttpMethod, url: string)

  /** What one `fetch` call produced: a response with its status and body, or
      an exception with its message. */
  datatype Reply = Responded(status: nat, body: Bytes) | Threw(message: string)

  type Network = nat -> Reply

  /** `response.ok`. */
  predicate IsOk(status: nat) {
    200 <= status <= 299
  }

  // ---------------------------------------------------------------------------
  // getSurahAudioUrl

  /** `n.toString().padStart(3, '0')`. */
  function Pad3(n: nat): string {
    PadStart(NatToString(n), 3, '0')
  }

  /** A chapter number below 1000 pads to exactly three digits that read back
      as the number. */
  lemma Pad3Digits(n: nat)
    requires n < 1000
    ensures |Pad3(n)| == 3 && AllDigits(Pad3(n)) && ParseDigits(Pad3(n)) == n
  {
    var d := NatToString(n);
    ParseNatToString(n);
    if |d| < 3 {
      ParseDigitsLeadingZeros(Repeat('0', 3 - |d|), d);
    }
  }

  /** From 1000 on, padding adds nothing and cuts nothing. */
  lemma Pad3Wide(n: nat)
    requires 1000 <= n
    ensures Pad3(n) == NatToString(n)
  {
  }

  /** The whole-chapter audio address. */
  function GetSurahAudioUrl(server: string, surahId: nat): (url: string)
    ensures |server| + 5 <= |url|
    ensures url[..|server| + 1] == server + "/" && url[|url| - 4..] == ".mp3"
  {
    server + "/" + Pad3(surahId) + ".mp3"
  }

  /** The address is the server, a slash, three digits that read back as the
      chapter number, and `.mp3`. */
  lemma SurahAudioUrlShape(server: string, surahId: nat)
    requires surahId < 1000
    ensures var url := GetSurahAudioUrl(server, surahId);
      && |url| == |server| + 8
      && url[..|server|] == server
      && url[|server|] == '/'
      && AllDigits(url[|server| + 1..|server| + 4])
      && ParseDigits(url[|server| + 1..|server| + 4]) == surahId
      && url[|server| + 4..] == ".mp3"
  {
    Pad3Digits(surahId);
    var url := GetSurahAudioUrl(server, surahId);
    assert url[|server| + 1..|server| + 4] == Pad3(surahId);
  }

  /** Different chapters of one server have different addresses. */
  lemma SurahAudioUrlInjective(server: string, a: nat, b: nat)
    requires a < 1000 && b < 1000
    requires GetSurahAudioUrl(server, a) == GetSurahAudioUrl(server, b)
    ensures a == b
  {
    SurahAudioUrlShape(server, a);
    SurahAudioUrlShape(server, b);
  }

  // ---------------------------------------------------------------------------
  // The per-ayah host

  const AyahHost: string := "https://everyayah.com/data/"

  /** The address of one ayah's audio under a per-ayah source folder. */
  function AyahUrl(folder: string, surahId: nat, ayahId: nat): (url: string)
    ensures |AyahHost + folder| + 5 <= |url|
    ensures url[..|AyahHost + folder| + 1] == AyahHost + folder + "/" && url[|url| - 4..] == ".mp3"
  {
    AyahHost + folder + "/" + Pad3(surahId) + Pad3(ayahId) + ".mp3"
  }

  /** Within one folder, the address determines the chapter and the ayah. */
  lemma AyahUrlIdentifiesAyah(folder: string, s1: nat, a1: nat, s2: nat, a2: nat)
    requires s1 < 1000 && a1 < 1000 && s2 < 1000 && a2 < 1000
    requires AyahUrl(folder, s1, a1) == AyahUrl(folder, s2, a2)
    ensures s1 == s2 && a1 == a2
  {
    Pad3Digits(s1); Pad3Digits(a1); Pad3Digits(s2); Pad3Digits(a2);
    var prefix := AyahHost + folder + "/";
    var u1 := AyahUrl(folder, s1, a1);
    var u2 := AyahUrl(folder, s2, a2);
    var p := |prefix|;
    assert u1 == prefix + Pad3(s1) + Pad3(a1) + ".mp3";
    assert u1[p..p + 3] == Pad3(s1) && u1[p + 3..p + 6] == Pad3(a1);
    assert u2[p..p + 3] == Pad3(s2) && u2[p + 3..p + 6] == Pad3(a2);
  }

  // ---------------------------------------------------------------------------
  // isLikelyRangeSupported

  /** The Arabic name of the Hafs narration. */
  const Hafs: string := "\U{062D}\U{0641}\U{0635}"

  /** One entry of the reciter-name to per-ayah-folder table, in the table's
      key order. */
  datatype SourceEntry = SourceEntry(key: string, folder: string)

  /** Every space-separated token of `key` occurs in `name`. */
  predicate KeyMatches(key: string, name: string) {
    forall part | part in Split(key, ' ') :: Contains(name, part)
  }

  /** `Object.keys(table).find(...)`: the index of the first entry whose key
      matches `name`. */
  function FindSource(mapping: seq<SourceEntry>, name: string): (r: Option<nat>)
    ensures r.Some? ==> r.value < |mapping| && KeyMatches(mapping[r.value].key, name)
    ensures r.Some? ==> forall j | 0 <= j < r.value :: !KeyMatches(mapping[j].key, name)
    ensures r.None? ==> forall j | 0 <= j < |mapping| :: !KeyMatches(mapping[j].key, name)
    decreases |mapping|
  {
    if mapping == [] then None
    else if KeyMatches(mapping[0].key, name) then Some(0)
    else match FindSource(mapping[1..], name)
      case None => None
      case Some(i) => Some(i + 1)
  }

  /** The entry the application goes on with: the first matching one, unless
      its key is the empty string, which JavaScript treats as false. */
  function MatchedSource(mapping: seq<SourceEntry>, name: string): (r: Option<SourceEntry>)
    ensures r.Some? ==> r.value in mapping && r.value.key != "" && KeyMatches(r.value.key, name)
    ensures r.None? && (forall e | e in mapping :: e.key != "") ==> forall e | e in mapping :: !KeyMatches(e.key, name)
  {
    match FindSource(mapping, name)
    case None => None
    case Some(i) => if mapping[i].key == "" then None else Some(mapping[i])
  }

  /** Whether the range download is offered for a reciter variant. */
  function IsLikelyRangeSupported(reciter: Reciter, mapping: seq<SourceEntry>): (b: bool)
    ensures b ==> Contains(reciter.rewaya, Hafs)
    ensures b ==> exists e | e in mapping :: e.key != "" && KeyMatches(e.key, reciter.name)
  {
    Contains(reciter.rewaya, Hafs) && MatchedSource(mapping, reciter.name).Some?
  }

  /** Without the Hafs marker in the narration name, no display name helps. */
  lemma NonHafsNeverSupported(reciter: Reciter, mapping: seq<SourceEntry>)
    requires !Contains(reciter.rewaya, Hafs)
    ensures !IsLikelyRangeSupported(reciter, mapping)
  {
  }

  /** The empty key has the single token "", which every name contains. */
  lemma EmptyKeyMatchesAll(name: string)
    ensures KeyMatches("", name)
  {
    assert Split("", ' ') == [""];
    ContainsEmpty(name);
  }

  /** For a table without empty keys: supported exactly when the narration is
      Hafs and some key has all its tokens in the name. */
  lemma RangeSupportCharacterised(reciter: Reciter, mapping: seq<SourceEntry>)
    requires forall e | e in mapping :: e.key != ""
    ensures IsLikelyRangeSupported(reciter, mapping)
        <==> Contains(reciter.rewaya, Hafs) && exists e | e in mapping :: KeyMatches(e.key, reciter.name)
  {
    var r := FindSource(mapping, reciter.name);
    if r.Some? {
      assert mapping[r.value] in mapping;
    } else {
      forall e | e in mapping ensures !KeyMatches(e.key, reciter.name) {
        var j :| 0 <= j < |mapping| && mapping[j] == e;
      }
    }
  }

  /** Every space-free piece of the first name also occurs in the second. */
  ghost predicate Covers(name: string, other: string) {
    forall part :: ' ' !in part && Contains(name, part) ==> Contains(other, part)
  }

  lemma KeyMatchesCovered(key: string, name: string, other: string)
    requires KeyMatches(key, name) && Covers(name, other)
    ensures KeyMatches(key, other)
  {
    var parts := Split(key, ' ');
    forall part | part in parts ensures Contains(other, part) {
      var k :| 0 <= k < |parts| && parts[k] == part;
    }
  }

  /** A name that covers a supported name is supported too. */
  lemma {:induction false} RangeSupportCovered(reciter: Reciter, mapping: seq<SourceEntry>, other: string)
    requires IsLikelyRangeSupported(reciter, mapping)
    requires Covers(reciter.name, other)
    ensures IsLikelyRangeSupported(reciter.(name := other), mapping)
  {
    var i := FindSource(mapping, reciter.name).value;
    KeyMatchesCovered(mapping[i].key, reciter.name, other);
    var found := FindSource(mapping, other);
    assert found.Some?;
    var j := found.value;
    assert j <= i;
    if mapping[j].key == "" {
      EmptyKeyMatchesAll(reciter.name);
      assert false;
    }
  }

  /** Adding words before or after a supported name keeps it supported. */
  lemma RangeSupportSurvivesLongerName(reciter: Reciter, mapping: seq<SourceEntry>, pre: string, post: string)
    requires IsLikelyRangeSupported(reciter, mapping)
    ensures IsLikelyRangeSupported(reciter.(name := pre + reciter.name + post), mapping)
  {
    forall part | ' ' !in part && Contains(reciter.name, part)
      ensures Contains(pre + reciter.name + post, part)
    {
      ContainsInLonger(pre, reciter.name, post, part);
    }
    RangeSupportCovered(reciter, mapping, pre + reciter.name + post);
  }

  /** Reordering the words of a supported name, or adding words, keeps it
      supported: a key token has no space, so it lies inside one word. */
  lemma RangeSupportIgnoresWordOrder(reciter: Reciter, mapping: seq<SourceEntry>, words: seq<string>, reordered: seq<string>)
    requires |words| >= 1
    requires reciter.name == Join(words, ' ')
    requires forall w | w in words :: w in reordered
    requires IsLikelyRangeSupported(reciter, mapping)
    ensures IsLikelyRangeSupported(reciter.(name := Join(reordered, ' ')), mapping)
  {
    forall part | ' ' !in part && Contains(reciter.name, part)
      ensures Contains(Join(reordered, ' '), part)
    {
      ContainsInJoin(words, ' ', part);
      var t :| t in words && Contains(t, part);
      ContainsJoinOfPiece(reordered, ' ', t, part);
    }
    RangeSupportCovered(reciter, mapping, Join(reordered, ' '));
  }

  // ---------------------------------------------------------------------------
  // checkAyahExists

  datatype Probe = Probe(found: bool, sent: seq<Request>)

  /** HEAD first; only when HEAD throws, a GET whose body is abandoned once the
      status is known. Never throws. */
  function CheckAyahExists(folder: string, surahId: nat, ayahId: nat, net: Network, n: nat): (p: Probe)
    ensures 1 <= |p.sent| <= 2
    ensures p.sent[0] == Request(Head, AyahUrl(folder, surahId, ayahId))
    ensures |p.sent| == 2 <==> net(n).Threw?
    ensures |p.sent| == 2 ==> p.sent[1] == Request(Get, AyahUrl(folder, surahId, ayahId))
    ensures net(n).Responded? ==> p.found == IsOk(net(n).status)
    ensures net(n).Threw? ==> p.found == (net(n + 1).Responded? && IsOk(net(n + 1).status))
  {
    var url := AyahUrl(folder, surahId, ayahId);
    match net(n)
    case Responded(status, _) => Probe(IsOk(status), [Request(Head, url)])
    case Threw(_) =>
      match net(n + 1)
      case Responded(status, _) => Probe(IsOk(status), [Request(Head, url), Request(Get, url)])
      case Threw(_) => Probe(false, [Request(Head, url), Request(Get, url)])
  }

  // ---------------------------------------------------------------------------
  // fetchAyahBlob

  const MaxRetries: nat := 3
  const BackoffStep: nat := 500
  const NotFoundMessage: string := "AYAH_NOT_FOUND"

  /** The message of the error an attempt raises inside the `try`, or `None`
      when the attempt yields a body. */
  function AttemptFailure(reply: Reply): Option<string> {
    match reply
    case Threw(m) => Some(m)
    case Responded(status, _) =>
      if status == 404 then Some(NotFoundMessage)
      else if !IsOk(status) then Some("HTTP error " + NatToString(status))
      else None
  }

  /** The `catch` treats these messages as "the ayah does not exist". */
  predicate IsNotFoundMessage(m: string) {
    m == NotFoundMessage || Contains(m, "404")
  }

  /** A failed attempt that ends the fetch as "not found". */
  predicate IsNotFound(reply: Reply) {
    AttemptFailure(reply).Some? && IsNotFoundMessage(AttemptFailure(reply).value)
  }

  /** A failed attempt that is retried. */
  predicate IsTransient(reply: Reply) {
    AttemptFailure(reply).Some? && !IsNotFoundMessage(AttemptFailure(reply).value)
  }

  function FetchFailedMessage(ayahId: nat, cause: string): string {
    "Ayah " + NatToString(ayahId) + " fetch failed: " + cause
  }

  /** The outcome of a fetch with retries: the body or the message of the
      error thrown, the requests issued, and the pauses requested between them. */
  datatype FetchReport = FetchReport(result: Result<Bytes, string>, sent: seq<Request>, delays: seq<nat>)

  /** The attempts from number `attempt` (counting from 0) on. */
  function FetchAttempts(url: string, ayahId: nat, net: Network, n: nat, attempt: nat): FetchReport
    requires attempt < MaxRetries
    decreases MaxRetries - attempt
  {
    var reply := net(n + attempt);
    var failure := AttemptFailure(reply);
    if failure.None? then FetchReport(Ok(reply.body), [Request(Get, url)], [])
    else if IsNotFoundMessage(failure.value) then FetchReport(Err(NotFoundMessage), [Request(Get, url)], [])
    else if attempt + 1 == MaxRetries then
      FetchReport(Err(FetchFailedMessage(ayahId, failure.value)), [Request(Get, url)], [])
    else
      var rest := FetchAttempts(url, ayahId, net, n, attempt + 1);
      FetchReport(rest.result, [Request(Get, url)] + rest.sent, [(attempt + 1) * BackoffStep] + rest.delays)
  }

  function FetchAyahReport(folder: string, surahId: nat, ayahId: nat, net: Network, n: nat): FetchReport {
    FetchAttempts(AyahUrl(folder, surahId, ayahId), ayahId, net, n, 0)
  }

  /** What the retry loop does from attempt `attempt` on: only GETs of the one
      address, at most the attempts left, every attempt but the last a
      transient failure, a pause of `k * 500` ms after failed attempt `k`,
      and a result decided by the last reply alone. */
  lemma {:induction false} FetchAttemptsOutcome(url: string, ayahId: nat, net: Network, n: nat, attempt: nat)
    requires attempt < MaxRetries
    ensures var r := FetchAttempts(url, ayahId, net, n, attempt);
      && 1 <= |r.sent| <= MaxRetries - attempt
      && (forall k | 0 <= k < |r.sent| :: r.sent[k] == Request(Get, url))
      && |r.delays| == |r.sent| - 1
      && (forall k | 0 <= k < |r.delays| :: r.delays[k] == (attempt + k + 1) * BackoffStep)
      && (forall j | n + attempt <= j < n + attempt + |r.sent| - 1 :: IsTransient(net(j)))
      && var last := net(n + attempt + |r.sent| - 1);
         && (AttemptFailure(last).None? ==> r.result == Ok(last.body))
         && (IsNotFound(last) ==> r.result == Err(NotFoundMessage))
         && (IsTransient(last) ==>
               attempt + |r.sent| == MaxRetries
               && r.result == Err(FetchFailedMessage(ayahId, AttemptFailure(last).value)))
    decreases MaxRetries - attempt
  {
    var reply := net(n + attempt);
    var failure := AttemptFailure(reply);
    if failure.Some? && !IsNotFoundMessage(failure.value) && attempt + 1 < MaxRetries {
      FetchAttemptsOutcome(url, ayahId, net, n, attempt + 1);
      var rest := FetchAttempts(url, ayahId, net, n, attempt + 1);
      var r := FetchAttempts(url, ayahId, net, n, attempt);
      assert r.sent == [Request(Get, url)] + rest.sent;
      assert n + attempt + |r.sent| - 1 == n + (attempt + 1) + |rest.sent| - 1;
    }
  }

  /** The whole fetch of one ayah: a 404 ends it at once, at most three
      attempts, pauses of 500 then 1000 ms, and the body of the first
      successful reply. */
  lemma FetchAyahOutcome(folder: string, surahId: nat, ayahId: nat, net: Network, n: nat)
    ensures var r := FetchAyahReport(folder, surahId, ayahId, net, n);
      && 1 <= |r.sent| <= MaxRetries
      && (forall k | 0 <= k < |r.sent| :: r.sent[k] == Request(Get, AyahUrl(folder, surahId, ayahId)))
      && r.delays == [500, 1000][..|r.sent| - 1]
      && (forall j | n <= j < n + |r.sent| - 1 :: IsTransient(net(j)))
      && var last := net(n + |r.sent| - 1);
         && (r.result.Ok? <==> AttemptFailure(last).None?)
         && (AttemptFailure(last).None? ==> last.Responded? && IsOk(last.status) && r.result.value == last.body)
         && (r.result == Err(NotFoundMessage) <==> IsNotFound(last))
         && (IsTransient(last) ==>
               |r.sent| == MaxRetries && r.result == Err(FetchFailedMessage(ayahId, AttemptFailure(last).value)))
  {
    var url := AyahUrl(folder, surahId, ayahId);
    FetchAttemptsOutcome(url, ayahId, net, n, 0);
    var r := FetchAyahReport(folder, surahId, ayahId, net, n);
    var last := net(n + |r.sent| - 1);
    if IsTransient(last) {
      FailedMessageIsNotNotFound(ayahId, AttemptFailure(last).value);
    }
  }

  lemma FailedMessageIsNotNotFound(ayahId: nat, cause: string)
    ensures FetchFailedMessage(ayahId, cause) != NotFoundMessage
  {
    assert FetchFailedMessage(ayahId, cause)[0] == 'A';
    assert FetchFailedMessage(ayahId, cause)[1] == 'y';
  }

  /** The requests of one fetch: one to three GETs of the ayah's address. */
  lemma FetchRequestsAreGets(folder: string, surahId: nat, ayahId: nat, net: Network, n: nat)
    ensures var r := FetchAyahReport(folder, surahId, ayahId, net, n);
      && 1 <= |r.sent| <= MaxRetries
      && forall k | 0 <= k < |r.sent| :: r.sent[k] == Request(Get, AyahUrl(folder, surahId, ayahId))
  {
    FetchAyahOutcome(folder, surahId, ayahId, net, n);
  }

  /** A fetched body is the body of the successful reply to the last request. */
  lemma FetchOkIsLastReply(folder: string, surahId: nat, ayahId: nat, net: Network, n: nat)
    requires FetchAyahReport(folder, surahId, ayahId, net, n).result.Ok?
    ensures var r := FetchAyahReport(folder, surahId, ayahId, net, n);
      var last := net(n + |r.sent| - 1);
      && 1 <= |r.sent|
      && r.sent[|r.sent| - 1] == Request(Get, AyahUrl(folder, surahId, ayahId))
      && last.Responded? && IsOk(last.status) && last.body == r.result.value
  {
    FetchAyahOutcome(folder, surahId, ayahId, net, n);
  }

  /** A fetch fails either as "not found" or with the "fetch failed" message
      naming the ayah. */
  lemma FetchErrorKinds(folder: string, surahId: nat, ayahId: nat, net: Network, n: nat)
    requires FetchAyahReport(folder, surahId, ayahId, net, n).result.Err?
    ensures var e := FetchAyahReport(folder, surahId, ayahId, net, n).result.error;
      e == NotFoundMessage || exists cause :: e == FetchFailedMessage(ayahId, cause)
  {
    FetchAyahOutcome(folder, surahId, ayahId, net, n);
  }

  /** The retry loop of `fetchAyahBlob`. */
  method FetchAyahBlob(folder: string, surahId: nat, ayahId: nat, net: Network, n: nat)
    returns (result: Result<Bytes, string>, sent: seq<Request>, delays: seq<nat>)
    ensures FetchReport(result, sent, delays) == FetchAyahReport(folder, surahId, ayahId, net, n)
  {
    var url := AyahUrl(folder, surahId, ayahId);
    var attempt := 0;
    sent, delays := [], [];
    while attempt < MaxRetries
      invariant 0 <= attempt < MaxRetries
      invariant |sent| == attempt
      invariant var rest := FetchAttempts(url, ayahId, net, n, attempt);
        FetchAyahReport(folder, surahId, ayahId, net, n)
          == FetchReport(rest.result, sent + rest.sent, delays + rest.delays)
      decreases MaxRetries - attempt
    {
      var reply := net(n + attempt);
      sent := sent + [Request(Get, url)];
      var failure := AttemptFailure(reply);
      if failure.None? {
        result := Ok(reply.body);
        return;
      }
      if IsNotFoundMessage(failure.value) {
        result := Err(NotFoundMessage);
        return;
      }
      attempt := attempt + 1;
      if attempt == MaxRetries {
        result := Err(FetchFailedMessage(ayahId, failure.value));
        return;
      }
      delays := delays + [attempt * BackoffStep];
    }
    // The loop always returns from its body.
    result := Err("Ayah " + NatToString(ayahId) + " fetch failed");
  }

  // ---------------------------------------------------------------------------
  // concatBlobs

  datatype Blob = Blob(bytes: Bytes, mimeType: string)

  function ConcatBytes(parts: seq<Bytes>): Bytes
    decreases |parts|
  {
    if parts == [] then [] else ConcatBytes(parts[..|parts| - 1]) + parts[|parts| - 1]
  }

  /** `new Blob(blobs, { type })`. */
  function ConcatBlobs(parts: seq<Bytes>, mimeType: string): (b: Blob)
    ensures b.mimeType == mimeType
    ensures parts == [] ==> b.bytes == []
    ensures |parts| == 1 ==> b.bytes == parts[0]
  {
    assert |parts| == 1 ==> ConcatBytes(parts) == ConcatBytes(parts[..0]) + parts[0] && parts[..0] == [];
    Blob(ConcatBytes(parts), mimeType)
  }

  lemma {:induction false} ConcatAppend(a: seq<Bytes>, b: seq<Bytes>)
    ensures ConcatBytes(a + b) == ConcatBytes(a) + ConcatBytes(b)
    decreases |b|
  {
    if b != [] {
      ConcatAppend(a, b[..|b| - 1]);
      assert (a + b)[..|a + b| - 1] == a + b[..|b| - 1];
    } else {
      assert a + b == a;
    }
  }

  /** Concatenation keeps every part, in order: part `j` sits right after the
      parts before it. */
  lemma ConcatPlacesEachPart(parts: seq<Bytes>, j: nat)
    requires j < |parts|
    ensures var offset := |ConcatBytes(parts[..j])|;
      && offset + |parts[j]| <= |ConcatBytes(parts)|
      && ConcatBytes(parts)[offset..offset + |parts[j]|] == parts[j]
  {
    assert parts == parts[..j] + [parts[j]] + parts[j + 1..];
    ConcatAppend(parts[..j] + [parts[j]], parts[j + 1..]);
    ConcatAppend(parts[..j], [parts[j]]);
    assert ConcatBytes([parts[j]]) == parts[j] by {
      assert [parts[j]][..0] == [];
    }
  }

  // ---------------------------------------------------------------------------
  // fetchReciters

  /** The catalogue's JSON, as far as the application reads it. A missing
      `surah_total` makes `toString` throw. */
  datatype ApiMoshaf = ApiMoshaf(id: nat, name: string, server: string, surahList: string, surahTotal: Option<nat>)

  datatype ApiReciter = ApiReciter(id: nat, name: string, letter: string, moshaf: Option<seq<ApiMoshaf>>)

  /** The catalogue request failed (exception, status not ok, or a body that
      is not JSON), or produced JSON whose `reciters` is an array or not. */
  datatype CatalogReply = CatalogFailed | CatalogJson(reciters: Option<seq<ApiReciter>>)

  function VariantId(reciterId: nat, moshafId: nat): string {
    NatToString(reciterId) + "-" + NatToString(moshafId)
  }

  function Variant(r: ApiReciter, m: ApiMoshaf, total: nat): Reciter {
    Reciter(VariantId(r.id, m.id), r.name, r.letter, m.server, m.surahList, NatToString(total), m.name)
  }

  /** The entries pushed for the moshafs `ms` of `r`, or `None` when one of
      them throws. */
  function MoshafVariants(r: ApiReciter, ms: seq<ApiMoshaf>): Option<seq<Reciter>>
    decreases |ms|
  {
    if ms == [] then Some([])
    else match MoshafVariants(r, ms[..|ms| - 1])
      case None => None
      case Some(prev) =>
        var m := ms[|ms| - 1];
        if m.surahTotal.None? then None else Some(prev + [Variant(r, m, m.surahTotal.value)])
  }

  function ReciterVariants(r: ApiReciter): Option<seq<Reciter>> {
    match r.moshaf
    case None => Some([])
    case Some(ms) => MoshafVariants(r, ms)
  }

  function FlattenCatalog(rs: seq<ApiReciter>): Option<seq<Reciter>>
    decreases |rs|
  {
    if rs == [] then Some([])
    else match FlattenCatalog(rs[..|rs| - 1])
      case None => None
      case Some(prev) =>
        match ReciterVariants(rs[|rs| - 1])
        case None => None
        case Some(vs) => Some(prev + vs)
  }

  /** The flat list before sorting, or `None` when the whole load fails. */
  function CatalogEntries(reply: CatalogReply): Option<seq<Reciter>> {
    match reply
    case CatalogFailed => None
    case CatalogJson(None) => Some([])
    case CatalogJson(Some(rs)) => FlattenCatalog(rs)
  }

  /** The number of moshaf records of reciters that have a moshaf array. */
  function MoshafCount(rs: seq<ApiReciter>): nat
    decreases |rs|
  {
    if rs == [] then 0
    else MoshafCount(rs[..|rs| - 1]) + match rs[|rs| - 1].moshaf { case None => 0 case Some(ms) => |ms| }
  }

  lemma {:induction false} MoshafVariantsShape(r: ApiReciter, ms: seq<ApiMoshaf>)
    ensures MoshafVariants(r, ms).Some? <==> forall m | m in ms :: m.surahTotal.Some?
    ensures MoshafVariants(r, ms).Some? ==>
      var vs := MoshafVariants(r, ms).value;
      |vs| == |ms| && forall k | 0 <= k < |ms| :: vs[k] == Variant(r, ms[k], ms[k].surahTotal.value)
    decreases |ms|
  {
    if ms != [] {
      MoshafVariantsShape(r, ms[..|ms| - 1]);
      assert ms == ms[..|ms| - 1] + [ms[|ms| - 1]];
      forall m | m in ms[..|ms| - 1] ensures m in ms { }
    }
  }

  /** One entry per moshaf, none for a reciter without a moshaf array, and
      every entry built from one reciter and one of its moshafs. */
  lemma {:induction false} FlattenOnePerMoshaf(rs: seq<ApiReciter>)
    requires FlattenCatalog(rs).Some?
    ensures |FlattenCatalog(rs).value| == MoshafCount(rs)
    ensures forall x | x in FlattenCatalog(rs).value ::
      exists i, m | 0 <= i < |rs| && rs[i].moshaf.Some? && m in rs[i].moshaf.value ::
        m.surahTotal.Some? && x == Variant(rs[i], m, m.surahTotal.value)
    decreases |rs|
  {
    if rs != [] {
      var init := rs[..|rs| - 1];
      var r := rs[|rs| - 1];
      FlattenOnePerMoshaf(init);
      var prev := FlattenCatalog(init).value;
      var vs := ReciterVariants(r).value;
      var all := FlattenCatalog(rs).value;
      assert all == prev + vs;
      if r.moshaf.Some? {
        MoshafVariantsShape(r, r.moshaf.value);
      }
      forall x | x in all
        ensures exists i, m | 0 <= i < |rs| && rs[i].moshaf.Some? && m in rs[i].moshaf.value ::
          m.surahTotal.Some? && x == Variant(rs[i], m, m.surahTotal.value)
      {
        if x in prev {
          var i, m :| 0 <= i < |init| && init[i].moshaf.Some? && m in init[i].moshaf.value
            && m.surahTotal.Some? && x == Variant(init[i], m, m.surahTotal.value);
          assert rs[i] == init[i];
        } else {
          assert x in vs;
          var k :| 0 <= k < |vs| && vs[k] == x;
          var ms := r.moshaf.value;
          assert ms[k] in ms;
          assert rs[|rs| - 1] == r;
        }
      }
    }
  }

  /** Every moshaf record yields an entry. */
  lemma {:induction false} FlattenCoversEveryMoshaf(rs: seq<ApiReciter>, i: nat, m: ApiMoshaf)
    requires FlattenCatalog(rs).Some?
    requires i < |rs| && rs[i].moshaf.Some? && m in rs[i].moshaf.value
    ensures m.surahTotal.Some? && Variant(rs[i], m, m.surahTotal.value) in FlattenCatalog(rs).value
    decreases |rs|
  {
    var init := rs[..|rs| - 1];
    var r := rs[|rs| - 1];
    if i < |rs| - 1 {
      assert rs[i] == init[i];
      FlattenCoversEveryMoshaf(init, i, m);
    } else {
      MoshafVariantsShape(r, r.moshaf.value);
      var k :| 0 <= k < |r.moshaf.value| && r.moshaf.value[k] == m;
      assert ReciterVariants(r).value[k] == Variant(r, m, m.surahTotal.value);
    }
  }

  /** The `count` text of an entry reads back, with `parseInt`, as the
      moshaf's `surah_total`. */
  lemma VariantCountReadsBack(r: ApiReciter, m: ApiMoshaf, total: nat)
    ensures ParseInt(Variant(r, m, total).count) == Some(total)
  {
    ParseIntOfNatToString(total);
  }

  /** Flattening fails exactly when one of the reciters fails. */
  lemma {:induction false} FlattenFailsIff(rs: seq<ApiReciter>)
    ensures FlattenCatalog(rs).None? <==> exists i | 0 <= i < |rs| :: ReciterVariants(rs[i]).None?
    decreases |rs|
  {
    if rs != [] {
      var init := rs[..|rs| - 1];
      FlattenFailsIff(init);
      assert forall i | 0 <= i < |init| :: init[i] == rs[i];
      if ReciterVariants(rs[|rs| - 1]).None? {
        assert FlattenCatalog(rs).None?;
      }
    }
  }

  /** The catalogue load yields no entries exactly when the request fails or
      one reciter in the reply has a moshaf without `surah_total`. */
  lemma CatalogFailsIff(reply: CatalogReply)
    ensures CatalogEntries(reply).None? <==>
      || reply.CatalogFailed?
      || (reply.reciters.Some? && exists i | 0 <= i < |reply.reciters.value| :: ReciterVariants(reply.reciters.value[i]).None?)
  {
    if reply.CatalogJson? && reply.reciters.Some? {
      FlattenFailsIff(reply.reciters.value);
    }
  }

  /** Distinct (reciter, moshaf) id pairs give distinct variant ids. */
  lemma VariantIdInjective(r1: nat, m1: nat, r2: nat, m2: nat)
    requires VariantId(r1, m1) == VariantId(r2, m2)
    ensures r1 == r2 && m1 == m2
  {
    DashedPairAgree(NatToString(r1), NatToString(m1), NatToString(r2), NatToString(m2));
    NatToStringInjective(r1, r2);
    NatToStringInjective(m1, m2);
  }

  /** `a-b` with a run of digits before the dash splits back into `a` and `b`. */
  lemma DashedPairAgree(a1: string, b1: string, a2: string, b2: string)
    requires AllDigits(a1) && AllDigits(a2)
    requires a1 + "-" + b1 == a2 + "-" + b2
    ensures a1 == a2 && b1 == b2
  {
    assert a1 + "-" + b1 == a1 + ("-" + b1);
    assert a2 + "-" + b2 == a2 + ("-" + b2);
    DigitRunsAgree(a1, "-" + b1, a2, "-" + b2);
    assert b1 == ("-" + b1)[1..];
    assert b2 == ("-" + b2)[1..];
  }

  lemma {:induction false} MoshafVariantsNonePersists(r: ApiReciter, ms: seq<ApiMoshaf>, j: nat)
    requires j <= |ms|
    requires MoshafVariants(r, ms[..j]).None?
    ensures MoshafVariants(r, ms).None?
    decreases |ms| - j
  {
    if j < |ms| {
      assert ms[..j + 1][..j] == ms[..j];
      MoshafVariantsNonePersists(r, ms, j + 1);
    } else {
      assert ms[..j] == ms;
    }
  }

  lemma {:induction false} FlattenNonePersists(rs: seq<ApiReciter>, i: nat)
    requires i <= |rs|
    requires FlattenCatalog(rs[..i]).None?
    ensures FlattenCatalog(rs).None?
    decreases |rs| - i
  {
    if i < |rs| {
      assert rs[..i + 1][..i] == rs[..i];
      FlattenNonePersists(rs, i + 1);
    } else {
      assert rs[..i] == rs;
    }
  }

  /** `localeCompare` stands for a comparison we do not model; all we need of
      it is that it orders every pair of names consistently. */
  ghost predicate TotalPreorder(precedes: (string, string) -> bool) {
    && (forall a, b :: precedes(a, b) || precedes(b, a))
    && (forall a, b, c :: precedes(a, b) && precedes(b, c) ==> precedes(a, c))
  }

  predicate SortedByName(s: seq<Reciter>, precedes: (string, string) -> bool) {
    forall i, j | 0 <= i < j < |s| :: precedes(s[i].name, s[j].name)
  }

  lemma SortedCons(y: Reciter, t: seq<Reciter>, precedes: (string, string) -> bool)
    requires SortedByName(t, precedes)
    requires forall z | z in t :: precedes(y.name, z.name)
    ensures SortedByName([y] + t, precedes)
  {
    var u := [y] + t;
    forall i, j | 0 <= i < j < |u| ensures precedes(u[i].name, u[j].name) {
      assert u[j] == t[j - 1];
      if i == 0 {
        assert t[j - 1] in t;
      } else {
        assert u[i] == t[i - 1];
      }
    }
  }

  /** Something ordered before the head of a sorted list is ordered before
      all of it. */
  lemma BelowHead(x: Reciter, s: seq<Reciter>, precedes: (string, string) -> bool)
    requires TotalPreorder(precedes)
    requires SortedByName(s, precedes)
    requires s != [] && precedes(x.name, s[0].name)
    ensures forall z | z in s :: precedes(x.name, z.name)
  {
    forall z | z in s ensures precedes(x.name, z.name) {
      var k :| 0 <= k < |s| && s[k] == z;
      if k > 0 {
        assert precedes(s[0].name, s[k].name);
      }
    }
  }

  /** The head of a sorted list is ordered before everything an insertion
      into its tail can produce, when it is ordered before the inserted
      entry. */
  lemma AboveHead(x: Reciter, s: seq<Reciter>, rest: seq<Reciter>, precedes: (string, string) -> bool)
    requires TotalPreorder(precedes)
    requires SortedByName(s, precedes)
    requires s != [] && precedes(s[0].name, x.name)
    requires multiset(rest) == multiset(s[1..]) + multiset{x}
    ensures forall z | z in rest :: precedes(s[0].name, z.name)
  {
    forall z | z in rest ensures precedes(s[0].name, z.name) {
      assert z in multiset(rest);
      if z != x {
        assert z in multiset(s[1..]);
        var k :| 0 <= k < |s[1..]| && s[1..][k] == z;
        assert s[k + 1] == z;
      }
    }
  }

  /** Two names the comparison puts in neither order: `localeCompare`
      returns 0 for them. */
  predicate Tied(a: string, b: string, precedes: (string, string) -> bool) {
    precedes(a, b) && precedes(b, a)
  }

  /** Inserts `x` into a sorted list after every entry it does not sort
      strictly before, so that it lands behind the entries tied with it. */
  function InsertByName(x: Reciter, s: seq<Reciter>, precedes: (string, string) -> bool): (r: seq<Reciter>)
    requires TotalPreorder(precedes)
    requires SortedByName(s, precedes)
    ensures SortedByName(r, precedes)
    ensures multiset(r) == multiset(s) + multiset{x}
    decreases |s|
  {
    if s == [] then [x]
    else if precedes(x.name, s[0].name) && !precedes(s[0].name, x.name) then
      BelowHead(x, s, precedes);
      SortedCons(x, s, precedes);
      [x] + s
    else
      var rest := InsertByName(x, s[1..], precedes);
      assert s == [s[0]] + s[1..];
      AboveHead(x, s, rest, precedes);
      SortedCons(s[0], rest, precedes);
      [s[0]] + rest
  }

  /** `Array.prototype.sort` with the name comparison. */
  function SortByName(s: seq<Reciter>, precedes: (string, string) -> bool): (r: seq<Reciter>)
    requires TotalPreorder(precedes)
    ensures SortedByName(r, precedes)
    ensures multiset(r) == multiset(s)
    decreases |s|
  {
    if s == [] then []
    else
      assert s == s[..|s| - 1] + [s[|s| - 1]];
      InsertByName(s[|s| - 1], SortByName(s[..|s| - 1], precedes), precedes)
  }

  /** The entries of `s` whose name is tied with `key`, in the order of `s`. */
  function TiedWith(s: seq<Reciter>, key: string, precedes: (string, string) -> bool): (r: seq<Reciter>)
    ensures |r| <= |s|
  {
    if s == [] then []
    else (if Tied(s[0].name, key, precedes) then [s[0]] else []) + TiedWith(s[1..], key, precedes)
  }

  lemma {:induction false} TiedWithAppend(a: seq<Reciter>, b: seq<Reciter>, key: string, precedes: (string, string) -> bool)
    ensures TiedWith(a + b, key, precedes) == TiedWith(a, key, precedes) + TiedWith(b, key, precedes)
    decreases |a|
  {
    if a != [] {
      assert (a + b)[0] == a[0] && (a + b)[1..] == a[1..] + b;
      TiedWithAppend(a[1..], b, key, precedes);
    } else {
      assert a + b == b;
    }
  }

  /** No entry of a sorted list whose head sorts strictly after `x` is tied
      with a name `x` is tied with. */
  lemma {:induction false} NoneTiedAfter(x: Reciter, s: seq<Reciter>, key: string, precedes: (string, string) -> bool)
    requires TotalPreorder(precedes)
    requires SortedByName(s, precedes)
    requires s != [] && !precedes(s[0].name, x.name)
    requires Tied(x.name, key, precedes)
    ensures TiedWith(s, key, precedes) == []
  {
    forall k | 0 <= k < |s| ensures !Tied(s[k].name, key, precedes) {
      if k > 0 {
        assert precedes(s[0].name, s[k].name);
      }
    }
    NoneTied(s, key, precedes);
  }

  lemma {:induction false} NoneTied(s: seq<Reciter>, key: string, precedes: (string, string) -> bool)
    requires forall k | 0 <= k < |s| :: !Tied(s[k].name, key, precedes)
    ensures TiedWith(s, key, precedes) == []
    decreases |s|
  {
    if s != [] {
      NoneTied(s[1..], key, precedes);
    }
  }

  /** Insertion keeps the entries tied with any name in their order and puts
      the new entry behind them. */
  lemma {:induction false} InsertByNameStable(x: Reciter, s: seq<Reciter>, key: string, precedes: (string, string) -> bool)
    requires TotalPreorder(precedes)
    requires SortedByName(s, precedes)
    ensures TiedWith(InsertByName(x, s, precedes), key, precedes)
      == TiedWith(s, key, precedes) + TiedWith([x], key, precedes)
    decreases |s|
  {
    if s == [] {
      assert InsertByName(x, s, precedes) == [x];
    } else if precedes(x.name, s[0].name) && !precedes(s[0].name, x.name) {
      InsertedInFront(x, s, key, precedes);
    } else {
      InsertByNameStable(x, s[1..], key, precedes);
      InsertedBehindShape(x, s, precedes);
      ConsKeepsTied(s[0], InsertByName(x, s[1..], precedes), s[1..], TiedWith([x], key, precedes), key, precedes);
      assert s == [s[0]] + s[1..];
    }
  }

  lemma InsertedInFront(x: Reciter, s: seq<Reciter>, key: string, precedes: (string, string) -> bool)
    requires TotalPreorder(precedes)
    requires SortedByName(s, precedes)
    requires s != [] && precedes(x.name, s[0].name) && !precedes(s[0].name, x.name)
    ensures TiedWith(InsertByName(x, s, precedes), key, precedes)
      == TiedWith(s, key, precedes) + TiedWith([x], key, precedes)
  {
    assert InsertByName(x, s, precedes) == [x] + s;
    TiedWithAppend([x], s, key, precedes);
    if Tied(x.name, key, precedes) {
      NoneTiedAfter(x, s, key, precedes);
    } else {
      assert TiedWith([x], key, precedes) == [];
    }
  }

  /** Putting the same entry in front of two lists whose tied entries differ
      by a suffix keeps that difference. */
  lemma ConsKeepsTied(y: Reciter, rest: seq<Reciter>, t: seq<Reciter>, behind: seq<Reciter>, key: string, precedes: (string, string) -> bool)
    requires TiedWith(rest, key, precedes) == TiedWith(t, key, precedes) + behind
    ensures TiedWith([y] + rest, key, precedes) == TiedWith([y] + t, key, precedes) + behind
  {
    var head := if Tied(y.name, key, precedes) then [y] else [];
    TiedWithCons(y, rest, key, precedes);
    TiedWithCons(y, t, key, precedes);
    assert head + (TiedWith(t, key, precedes) + behind) == (head + TiedWith(t, key, precedes)) + behind;
  }

  lemma InsertedBehindShape(x: Reciter, s: seq<Reciter>, precedes: (string, string) -> bool)
    requires TotalPreorder(precedes)
    requires SortedByName(s, precedes)
    requires s != [] && !(precedes(x.name, s[0].name) && !precedes(s[0].name, x.name))
    ensures InsertByName(x, s, precedes) == [s[0]] + InsertByName(x, s[1..], precedes)
  {
  }

  lemma TiedWithCons(y: Reciter, t: seq<Reciter>, key: string, precedes: (string, string) -> bool)
    ensures TiedWith([y] + t, key, precedes)
      == (if Tied(y.name, key, precedes) then [y] else []) + TiedWith(t, key, precedes)
  {
    assert ([y] + t)[0] == y && ([y] + t)[1..] == t;
  }

  /** The sort is stable: entries tied with one another keep their order. */
  lemma {:induction false} SortByNameStable(s: seq<Reciter>, key: string, precedes: (string, string) -> bool)
    requires TotalPreorder(precedes)
    ensures TiedWith(SortByName(s, precedes), key, precedes) == TiedWith(s, key, precedes)
    decreases |s|
  {
    if s != [] {
      var init := s[..|s| - 1];
      var last := s[|s| - 1];
      assert s == init + [last];
      SortByNameStable(init, key, precedes);
      InsertByNameStable(last, SortByName(init, precedes), key, precedes);
      TiedWithAppend(init, [last], key, precedes);
    }
  }

  /** `fetchReciters`: flatten reciter -> moshaf records, sort by name, and
      fall back to the empty list on any error. */
  method FetchReciters(reply: CatalogReply, precedes: (string, string) -> bool) returns (list: seq<Reciter>)
    requires TotalPreorder(precedes)
    ensures CatalogEntries(reply).None? ==> list == []
    ensures CatalogEntries(reply).Some? ==>
      SortedByName(list, precedes) && multiset(list) == multiset(CatalogEntries(reply).value)
    ensures CatalogEntries(reply).Some? ==>
      forall key :: TiedWith(list, key, precedes) == TiedWith(CatalogEntries(reply).value, key, precedes)
  {
    if reply.CatalogFailed? {
      return [];
    }
    var reciters: seq<Reciter> := [];
    if reply.reciters.Some? {
      var rs := reply.reciters.value;
      var i := 0;
      while i < |rs|
        invariant 0 <= i <= |rs|
        invariant FlattenCatalog(rs[..i]) == Some(reciters)
      {
        var r := rs[i];
        assert rs[..i + 1][..i] == rs[..i] && rs[..i + 1][i] == r;
        ghost var pushedBefore := reciters;
        if r.moshaf.Some? {
          var ms := r.moshaf.value;
          var j := 0;
          while j < |ms|
            invariant 0 <= j <= |ms|
            invariant MoshafVariants(r, ms[..j]).Some?
            invariant reciters == pushedBefore + MoshafVariants(r, ms[..j]).value
          {
            var m := ms[j];
            assert ms[..j + 1][..j] == ms[..j] && ms[..j + 1][j] == m;
            if m.surahTotal.None? {
              MoshafVariantsNonePersists(r, ms, j + 1);
              FlattenNonePersists(rs, i + 1);
              return [];
            }
            reciters := reciters + [Variant(r, m, m.surahTotal.value)];
            j := j + 1;
          }
          assert ms[..j] == ms;
        } else {
          assert reciters == pushedBefore + [];
        }
        assert ReciterVariants(r).Some? && reciters == pushedBefore + ReciterVariants(r).value;
        i := i + 1;
      }
      assert rs[..i] == rs;
    }
    list := SortByName(reciters, precedes);
    forall key ensures TiedWith(list, key, precedes) == TiedWith(reciters, key, precedes) {
      SortByNameStable(reciters, key, precedes);
    }
  }
}
