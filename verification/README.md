# UNISA page monitor — a Dafny model

`monitor_unisa.py` is a polling change detector: once per invocation it checks
the Europe/Rome hour, loads the URL-to-digest map saved by the previous run
(`hashes.json`), fetches five pages, extracts their text, hashes it
with SHA-256, records a change event for every already-known page whose digest
moved, sends one aggregated Telegram message when there is at least one
change, and always saves the new map.

This project models the pure decision core of that script:

- `Text` (text.dfy): Python's `str.strip()`, `replace("\n", " ")` and slicing,
  and the 700-character change snippet.
- `Fetch` (fetch.dfy): the error rule of `fetch_text` (an exception raised by
  the request, a 4xx/5xx status, or markup the HTML parser rejects fails the
  fetch) and its content-region selection (first
  selector node whose stripped text is longer than 50 characters, else the
  whole document's text). The parser's per-selector results are inputs.
- `Reconciliation` (reconcile.dfy): the loop of `main` as a fold over the
  run's fetch attempts, producing the new map and the ordered change list,
  with the digest function as a parameter `hash`.
- `Message` (message.dfy): the notification text, a fixed header followed
  by one `url`, snippet (first 400 characters), `...` block per change.
- `Monitor` (monitor.dfy): the configured URL list, the active-hour gate,
  `send_telegram`'s decision, and a whole run: skipped, or completed with the
  saved map and at most one notification.
- `Optional` (optional.dfy): the `Option` type used for absent values.

The saved map is rebuilt from scratch each run (monitor_unisa.py:83, 94, 113),
so an entry for a URL that was not fetched successfully in this run (because
it failed, or because it was removed from the URL list) is not carried over.

## Model

| member | source | states |
|---|---|---|
| `Monitor.ShouldRun` | monitor_unisa.py:28-32 | The run goes ahead exactly when the hour is not 3 and not 4, i.e. hours 0-2 and 5-23. |
| `Monitor.Run` | monitor_unisa.py:76-113 | Hours 3 and 4 give Skipped, which carries no saved map and no notification, whatever the state file and pages; any other hour saves a map whose keys are exactly the configured URLs fetched successfully, each mapped to the hash of its fetched text, and produces one notification exactly when some configured page already in the stored map changed digest, its text starting with the header. |
| `Monitor.ConfiguredReconcile` | monitor_unisa.py:86-102 | For the configured list: the new keys are the URLs fetched successfully, each with the hash of its text, and the change list is non-empty exactly when some configured page already stored changed digest. |
| `Monitor.FirstRunIsQuiet` | monitor_unisa.py:66-70 | With no state file (loaded as the empty map), an active run sends no notification and saves, for every configured URL fetched, the hash of its text: every page is a first observation. |
| `Monitor.SavedWhateverTheNotifier` | monitor_unisa.py:104-113 | The saved map and whether a notification is attempted are the same whatever the credentials and whatever the POST returns: persistence does not depend on delivery. |
| `Monitor.RerunIsQuiet` | monitor_unisa.py:76-113 | A second active run on unchanged pages, from the map the first run saved, sends no notification and saves the same map. |
| `Monitor.ConfiguredUrlsDistinct` | monitor_unisa.py:11-17 | The five configured URLs are pairwise different, so the per-URL results below apply to the real list. |
| `Monitor.SendTelegram` | monitor_unisa.py:50-64 | Delivery is reported true exactly when the token and chat id are both set and non-empty and the POST got a non-error status; a missing credential, an exception or a 4xx/5xx status all give false. |
| `Fetch.SelectText` | monitor_unisa.py:40-45 | The text is that of the first candidate node whose stripped text is longer than 50 characters; when no candidate qualifies it is the whole document's text. |
| `Fetch.FetchText` | monitor_unisa.py:34-45 | Fetching fails exactly when the request raises (timeout, connection or SSL error, too many redirects, invalid URL, ...), the status is 400-599, or the HTML parser raises on the body; otherwise it yields the selected text of the page. |
| `Fetch.SelectionIgnoresLaterCandidates` | monitor_unisa.py:40-43 | Once some candidate qualifies, adding candidates after it does not change the selected text. |
| `Text.TrimLeft` | monitor_unisa.py:98 | The result is a suffix of the input, everything removed is whitespace, and the result does not start with whitespace. |
| `Text.TrimRight` | monitor_unisa.py:98 | The result is a prefix of the input, everything removed is whitespace, and the result does not end with whitespace. |
| `Text.Strip` | monitor_unisa.py:98 | The stripped text has no whitespace at either end (weaker than `strip()`; completed by Text.StripUnique, see Left out). |
| `Text.StripUnique` | monitor_unisa.py:98 | For any split of a string into whitespace, a core with no whitespace at either end, and whitespace, Strip returns that core. |
| `Text.StripIdempotent` | monitor_unisa.py:98 | Stripping twice gives the same as stripping once. |
| `Text.Flatten` | monitor_unisa.py:98 | Same length, every line break becomes a space, every other character is kept, and no line break remains. |
| `Text.Take` | monitor_unisa.py:98 | The result is a prefix of the input of length min(n, length). |
| `Text.Snippet` | monitor_unisa.py:98 | A snippet has at most 700 characters, no line break, does not start with whitespace, and is the prefix of the stripped, line-break-free text, whole when that text is at most 700 long. |
| `Text.ShortSnippetIsWhole` | monitor_unisa.py:98 | A page whose stripped text has at most 700 characters is reported in full. |
| `Reconciliation.Reconcile` | monitor_unisa.py:83-102 | The fold records at most one change per attempt and only attempted URLs become keys of the new map. |
| `Reconciliation.ReconcileAll` | monitor_unisa.py:82-102 | The loop as written computes the fold, and its map's keys are exactly the URLs fetched successfully. |
| `Reconciliation.KeysAreSucceeded` | monitor_unisa.py:86-94 | The new map's key set is exactly the set of URLs with at least one successful fetch in the run. |
| `Reconciliation.DigestOfLastSuccess` | monitor_unisa.py:93-94 | Each URL's new digest is the hash of the text of its last successful fetch in the run. |
| `Reconciliation.DigestsOfDistinctRun` | monitor_unisa.py:93-94 | With no duplicate URLs, every successfully fetched URL is in the new map with the hash of its text. |
| `Reconciliation.ChangesFollowAttempts` | monitor_unisa.py:86-102 | The change list is the subsequence, in URL-list order, of the events of the attempts that changed: each change comes from a distinct, strictly later attempt, and every changed attempt contributes one. |
| `Reconciliation.ChangeRecordedIff` | monitor_unisa.py:95-102 | An event is recorded for an attempt if and only if it fetched successfully, its URL is in the previous map and the stored digest differs from the new one. |
| `Reconciliation.ChangedIsRecorded` | monitor_unisa.py:95-99 | A changed attempt's event is in the change list. |
| `Reconciliation.RecordedIsChanged` | monitor_unisa.py:95-99 | Every event in the change list is the event of some changed attempt. |
| `Reconciliation.ChangesOnlyForKnownUrls` | monitor_unisa.py:95-102 | Every change is for a URL of the previous map: a first observation never produces a change. |
| `Reconciliation.AtMostOneChangePerUrl` | monitor_unisa.py:86-99 | With no duplicate URLs, no URL appears twice in the change list. |
| `Reconciliation.NewStateIgnoresPrevious` | monitor_unisa.py:83-94 | The new map depends only on this run's fetches, not on the previous map. |
| `Reconciliation.StoredDigestsKept` | monitor_unisa.py:93-99 | When every fetched page has its stored digest, no change is recorded and every entry of the new map equals the stored one. |
| `Reconciliation.NoChangeWhenDigestsMatch` | monitor_unisa.py:93-99 | When every fetched page has its stored digest, no change is recorded and the new map is the previous one restricted to the fetched URLs (to all listed URLs when every fetch succeeded). |
| `Reconciliation.SecondRunIsQuiet` | monitor_unisa.py:82-102 | With no duplicate URLs, reconciling the same fetches again against the map just produced records nothing and yields the same map. |
| `Reconciliation.DroppedUrlIsForgotten` | monitor_unisa.py:88-94 | A URL whose every fetch in the run failed is absent from the new map, even if it was in the previous one. |
| `Reconciliation.RecoveredUrlIsFirstObservation` | monitor_unisa.py:88-102 | A URL dropped by one run produces no change in the next run, whatever its text then. |
| `Message.Block` | monitor_unisa.py:107 | A block starts with its URL and is between 6 and 406 characters longer than it, so it shows at most 400 characters of the snippet. |
| `Message.BlockLayout` | monitor_unisa.py:107 | A block is the URL, a line break, the first min(400, length) characters of the snippet, then `...` and a blank line. |
| `Message.BuildMessage` | monitor_unisa.py:104-107 | The appending loop yields the header followed by the blocks of all changes in order. |
| `Message.MessageListsChangesInOrder` | monitor_unisa.py:104-107 | The message starts with the header, each change's block (and so its URL) sits at its offset, each block starts exactly where the previous one ends, blocks appear in change-list order without overlap, and nothing follows the last block. |

## Left out

- Network I/O: the HTTP GET with its 20-second timeout and User-Agent header, and the Telegram POST with its 15-second timeout, endpoint and payload (`chat_id`, `text`, `parse_mode`), are replaced by their results (`Fetch.Response`, `Monitor.PostResult`).
- HTML parsing: BeautifulSoup's `select_one` and `get_text` are not modelled; for each of the six selectors the page gives the node found (its stripped text length and its rendered text) and the document's whole text; a body the parser raises on (monitor_unisa.py:38) is the response's `parsed` field being `None`.
- SHA-256 and UTF-8 encoding: the digest is a parameter `hash: string -> string`; nothing is assumed about collisions.
- Lone surrogates: a Python `str` may hold them and a Dafny `char` cannot. For such page text the UTF-8 encoding before hashing (monitor_unisa.py:48) raises, and since hashing (line 93) is outside the per-URL `try`, the whole run crashes and saves nothing. The model's `hash` is total, so its `Monitor.Run` always completes on an active hour.
- The state file: reading and writing `hashes.json` is a value passed in (`Monitor.StateFile`) and a map returned. `Monitor.StateFile` represents only an absent file or a JSON object mapping strings to strings. A file that is not valid JSON makes the script crash before any fetch. Other JSON values are loaded without any shape check (monitor_unisa.py:69) and are not modelled: an object with a non-string value makes every fetched URL it holds compare unequal (line 96) and so be reported as changed; a list or string crashes at line 96 only after a successful fetch of a URL it contains; a number, `true`, `false` or null crashes at line 95 after the first successful fetch, and a run in which every fetch fails completes and saves `{}`.
- The clock and the Europe/Rome time-zone lookup: the hour is an input in 0..23.
- Environment-variable lookup: the token and chat id are inputs (`Option<string>`).
- Logging with `print`.
- Text.Strip: its own contract only says the result has no whitespace at either end; the full characterisation is Text.StripUnique together with TrimLeft and TrimRight.
- Monitor.Run: its contract states the message only starts with the header; the rest of its content is stated by Message.MessageListsChangesInOrder and Message.Block about `Message.Compose`.
