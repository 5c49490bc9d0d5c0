/**
 One invocation of the monitor (`main`, monitor_unisa.py:76-114): the
 active-hour gate, loading the stored digests, reconciling the configured
 pages, at most one Telegram notification, and saving the new digests.
 The clock, the state file, the network and the environment are inputs.
 */
module Monitor {
  import opened Optional
  import opened Fetch
  import opened Reconciliation
  import Message

  /** The pages watched, in the order they are checked. */
  const Urls: seq<string> := [
    "https://www.dipsum.unisa.it/home/news",
    "https://corsi.unisa.it/linguistica-e-didattica-dell-italiano/comunicazioni-docenti",
    "https://corsi.unisa.it/filologia-letterature-e-storia-dell-antichita/comunicazioni-docenti",
    "https://corsi.unisa.it/filologia-moderna/comunicazioni-docenti",
    "https://search.app/FDANfFo57SDp2Pz99"
  ]

  /**
   The active-hour gate on the Europe/Rome hour of day: the run goes ahead
   from 05:00 to 02:59 and is skipped only during hours 3 and 4.
   */
  function ShouldRun(hour: int): (active: bool)
    requires 0 <= hour < 24
    ensures active <==> hour != 3 && hour != 4
  {
    hour >= 5 || hour <= 2
  }

  /** `hashes.json`: absent, or a stored URL-to-digest map. */
  datatype StateFile = NoFile | HashFile(hashes: Hashes)

  /** A missing file reads as the empty map; a present one as the map it holds. */
  function LoadHashes(file: StateFile): (prev: Hashes)
    ensures file.NoFile? ==> prev == map[]
    ensures file.HashFile? ==> prev == file.hashes
  {
    match file
    case NoFile => map[]
    case HashFile(hashes) => hashes
  }

  /** Python truthiness of an environment value: unset and empty both fail. */
  predicate Missing(v: Option<string>) {
    v.None? || v.value == ""
  }

  /** What the POST to the Telegram Bot API gave: an exception, or a status. */
  datatype PostResult = PostError | PostReply(status: int)

  /**
   `send_telegram`: true exactly when both credentials are present and the
   POST returned a non-error status; every failure is turned into false.
   */
  function SendTelegram(token: Option<string>, chatId: Option<string>, post: PostResult): (delivered: bool)
    ensures delivered <==> !Missing(token) && !Missing(chatId) && post.PostReply? && !IsErrorStatus(post.status)
  {
    if Missing(token) || Missing(chatId) then false
    else
      match post
      case PostError => false
      case PostReply(status) => !IsErrorStatus(status)
  }

  /** The fetch attempts of a run: each URL paired with what fetching it gave. */
  function Attempts(urls: seq<string>, outcomes: seq<FetchOutcome>): (attempts: seq<Attempt>)
    requires |outcomes| == |urls|
    ensures |attempts| == |urls|
    ensures forall i :: 0 <= i < |urls| ==> attempts[i] == Attempt(urls[i], outcomes[i])
  {
    seq(|urls|, i requires 0 <= i < |urls| => Attempt(urls[i], outcomes[i]))
  }

  /** The one notification of a run: its text and whether it was delivered. */
  datatype Notice = Notice(message: string, delivered: bool)

  /**
   A run either stops at the gate, touching nothing, or completes: the map
   it saves and the notification it sends, if any.
   */
  datatype RunResult = Skipped | Completed(saved: Hashes, notice: Option<Notice>)

  /**
   One invocation. `outcomes[i]` is what fetching `Urls[i]` gave, `hash` is
   SHA-256 of the text as hex, `token`/`chatId` the environment values and
   `post` the result of the POST to Telegram.

   The run is skipped exactly in hours 3 and 4. Otherwise it saves a map
   whose keys are exactly the URLs fetched successfully, and sends one
   notification exactly when some page known from the stored map changed
   digest; that notification starts with the header.
   */
  function Run(hour: int, file: StateFile, outcomes: seq<FetchOutcome>, hash: string -> Digest,
               token: Option<string>, chatId: Option<string>, post: PostResult): (r: RunResult)
    requires 0 <= hour < 24
    requires |outcomes| == |Urls|
    ensures r.Skipped? <==> hour == 3 || hour == 4
    ensures r.Completed? ==>
              r.saved.Keys == set i | 0 <= i < |Urls| && outcomes[i].Fetched? :: Urls[i]
    ensures r.Completed? ==>
              (r.notice.Some? <==> exists i :: 0 <= i < |Urls| && Changed(LoadHashes(file), hash, Attempt(Urls[i], outcomes[i])))
    ensures r.Completed? ==>
              forall i :: 0 <= i < |Urls| && outcomes[i].Fetched? ==>
                Urls[i] in r.saved && r.saved[Urls[i]] == hash(outcomes[i].text)
    ensures r.Completed? && r.notice.Some? ==> Message.Header <= r.notice.value.message
  {
    if !ShouldRun(hour) then Skipped
    else
      var prev := LoadHashes(file);
      var attempts := Attempts(Urls, outcomes);
      var p := Reconcile(prev, hash, attempts);
      ConfiguredReconcile(prev, hash, outcomes);
      var notice := if p.changes != [] then Some(Notice(Message.Compose(p.changes), SendTelegram(token, chatId, post))) else None;
      Completed(p.hashes, notice)
  }

  /** What reconciling the configured pages gives, stated per configured URL. */
  lemma ConfiguredReconcile(prev: Hashes, hash: string -> Digest, outcomes: seq<FetchOutcome>)
    requires |outcomes| == |Urls|
    ensures var p := Reconcile(prev, hash, Attempts(Urls, outcomes));
            && p.hashes.Keys == (set i | 0 <= i < |Urls| && outcomes[i].Fetched? :: Urls[i])
            && (p.changes != [] <==> exists i :: 0 <= i < |Urls| && Changed(prev, hash, Attempt(Urls[i], outcomes[i])))
            && (forall i :: 0 <= i < |Urls| && outcomes[i].Fetched? ==>
                  Urls[i] in p.hashes && p.hashes[Urls[i]] == hash(outcomes[i].text))
  {
    ConfiguredKeys(prev, hash, outcomes);
    ConfiguredChanges(prev, hash, outcomes);
    ConfiguredDigests(prev, hash, outcomes);
  }

  /** The saved keys are the configured URLs whose fetch succeeded. */
  lemma ConfiguredKeys(prev: Hashes, hash: string -> Digest, outcomes: seq<FetchOutcome>)
    requires |outcomes| == |Urls|
    ensures Reconcile(prev, hash, Attempts(Urls, outcomes)).hashes.Keys ==
              (set i | 0 <= i < |Urls| && outcomes[i].Fetched? :: Urls[i])
  {
    var attempts := Attempts(Urls, outcomes);
    KeysAreSucceeded(prev, hash, attempts);
    assert Succeeded(attempts) == set i | 0 <= i < |Urls| && outcomes[i].Fetched? :: Urls[i];
  }

  /** Some change is recorded exactly when some configured page changed. */
  lemma ConfiguredChanges(prev: Hashes, hash: string -> Digest, outcomes: seq<FetchOutcome>)
    requires |outcomes| == |Urls|
    ensures Reconcile(prev, hash, Attempts(Urls, outcomes)).changes != [] <==>
              exists i :: 0 <= i < |Urls| && Changed(prev, hash, Attempt(Urls[i], outcomes[i]))
  {
    var attempts := Attempts(Urls, outcomes);
    var p := Reconcile(prev, hash, attempts);
    ChangeRecordedIff(prev, hash, attempts);
    if p.changes != [] {
      assert p.changes[0] in p.changes;
    }
  }

  /** Every configured page fetched has the digest of its text saved. */
  lemma ConfiguredDigests(prev: Hashes, hash: string -> Digest, outcomes: seq<FetchOutcome>)
    requires |outcomes| == |Urls|
    ensures forall i :: 0 <= i < |Urls| && outcomes[i].Fetched? ==>
              && Urls[i] in Reconcile(prev, hash, Attempts(Urls, outcomes)).hashes
              && Reconcile(prev, hash, Attempts(Urls, outcomes)).hashes[Urls[i]] == hash(outcomes[i].text)
  {
    var attempts := Attempts(Urls, outcomes);
    ConfiguredUrlsDistinct(outcomes);
    DigestsOfDistinctRun(prev, hash, attempts);
  }

  /**
   With no state file every page is a first observation: an active run sends
   nothing and saves the digest of every configured page it fetched.
   */
  lemma FirstRunIsQuiet(hour: int, outcomes: seq<FetchOutcome>, hash: string -> Digest,
                        token: Option<string>, chatId: Option<string>, post: PostResult)
    requires 0 <= hour < 24 && ShouldRun(hour)
    requires |outcomes| == |Urls|
    ensures var r := Run(hour, NoFile, outcomes, hash, token, chatId, post);
            && r.Completed?
            && r.notice.None?
            && forall i :: 0 <= i < |Urls| && outcomes[i].Fetched? ==>
                 Urls[i] in r.saved && r.saved[Urls[i]] == hash(outcomes[i].text)
  {
  }

  /** The configured list names no page twice. */
  lemma ConfiguredUrlsDistinct(outcomes: seq<FetchOutcome>)
    requires |outcomes| == |Urls|
    ensures DistinctUrls(Attempts(Urls, outcomes))
  {
  }

  /**
   What is saved, and the message composed, do not depend on the Telegram
   credentials or on whether delivery worked.
   */
  lemma SavedWhateverTheNotifier(hour: int, file: StateFile, outcomes: seq<FetchOutcome>, hash: string -> Digest,
                                 token1: Option<string>, chatId1: Option<string>, post1: PostResult,
                                 token2: Option<string>, chatId2: Option<string>, post2: PostResult)
    requires 0 <= hour < 24
    requires |outcomes| == |Urls|
    ensures Run(hour, file, outcomes, hash, token1, chatId1, post1).Completed? ==>
              && Run(hour, file, outcomes, hash, token2, chatId2, post2).Completed?
              && Run(hour, file, outcomes, hash, token1, chatId1, post1).saved == Run(hour, file, outcomes, hash, token2, chatId2, post2).saved
              && Run(hour, file, outcomes, hash, token1, chatId1, post1).notice.Some? == Run(hour, file, outcomes, hash, token2, chatId2, post2).notice.Some?
  {
  }

  /**
   Running again with the same page texts, from the map the first run saved,
   sends nothing and saves the same map.
   */
  lemma {:induction false} RerunIsQuiet(hour: int, file: StateFile, outcomes: seq<FetchOutcome>, hash: string -> Digest,
                     token: Option<string>, chatId: Option<string>, post: PostResult)
    requires 0 <= hour < 24
    requires |outcomes| == |Urls|
    requires ShouldRun(hour)
    ensures var first := Run(hour, file, outcomes, hash, token, chatId, post);
            var second := Run(hour, HashFile(first.saved), outcomes, hash, token, chatId, post);
            second.Completed? && second.notice.None? && second.saved == first.saved
  {
    var attempts := Attempts(Urls, outcomes);
    ConfiguredUrlsDistinct(outcomes);
    SecondRunIsQuiet(LoadHashes(file), hash, attempts);
  }

}
