# Breaking-news notifications and bearer-token check

A Dafny model of two pieces of the news aggregator's backend:

- the **breaking-news notification service**: a poller that takes a batch of fetched
  articles, keeps those whose title or description mentions one of the markers
  `breaking`, `urgent`, `alert`, `exclusive` (ignoring case), skips the ones whose url is in
  the dedup store, and hands the rest to a dispatcher that broadcasts a `breaking-news`
  event `{title, url}` when at least one socket is connected and queues the article
  otherwise; a socket connection registers the socket and drains the queue in FIFO order;
  a disconnection only forgets the socket id;
- the **`verifyToken` middleware**: a request without an `Authorization` header starting
  with `"Bearer "` is rejected with 401; otherwise the second space-separated field of the
  header is handed to the JWT verifier, whose error gives 403 and whose payload is attached
  to the request as `user`.

Files:

- `news_types.dfy` (`NewsTypes`): JavaScript values as the code sees them (`undefined`,
  `null` or a string, with JavaScript truthiness and `String(...)`), articles, notices and
  the JSON elements of the cache file.
- `classifier.dfy` (`Classifier`): `isBreakingNews` as an executable scan, and a reference
  definition ("some marker occurs in the ASCII lower-cased text") proved equivalent.
- `notification_spec.dfy` (`NotificationSpec`): the service as a state machine over values
  (notified urls, connected socket ids, pending queue, log of emitted events), one function
  per operation, and the lemmas about them.
- `notification_service.dfy` (`NotificationService`): the service as the mutable object it is:
  a class whose fields are the module-level `Set`s and array; the cache file is a ghost field
  kept equal to the stored set. Module start-up is the constructor (`Initial`);
  `AlreadyNotified` answers set membership and changes nothing; `SaveAsNotified`,
  `QueueNotification`, `NotifyUsers`, `SendQueuedNotifications` and `CheckForBreakingNews`
  are proved to move the abstract state as `Save`, `Enqueue`, `Dispatch`, `Flush` and `Poll`
  do; the two handlers registered by `setupSocketHandlers` are `OnConnect` (`Connect`) and
  `OnDisconnect` (`Disconnect`). `isBreakingNews` changes no state and is the function
  `Classifier.IsBreakingNews`.
- `verify_user.dfy` (`VerifyUser`): the middleware, with `split(" ")` and the verifier as a
  function parameter.

Modelling choices:

- An article field is `undefined`, `null` or a string. `regex.test` converts its argument
  to a string, so a missing title is searched as `"undefined"`; no marker occurs in
  `"undefined"` or `"null"`, which `Classifier.BlankFieldNeverMatches` proves.
- The patterns are `/i` without the `u` flag and all-ASCII lower case, so a character
  matches a pattern letter exactly when its ASCII lower-case form is that letter.
- The batch loop checks the article and its title but never its url, so a titled breaking
  article without a url is dispatched (and dropped by `notifyUsers` as invalid) and
  `undefined` is recorded in the notified set; `JSON.stringify` writes it as `null`. The
  model keeps this behaviour: the notified set holds `JsValue`s, and
  `NotificationSpec.RestartKeepsUrls` states what survives a restart.
- The dedup key is the article's url. The batch loop skips null articles and articles without
  a title before it classifies them. A url is recorded as notified right after the article
  is handed to `notifyUsers`, also when the article was only queued.

## Model

| member | source | states |
|---|---|---|
| Classifier.IsBreakingNewsSpec | backend/src/controllers/notificationService.js:18-38 | an article is breaking exactly when its title or its description (as strings) contains one of the four markers, ignoring ASCII case |
| Classifier.AnyFromFindsMarker | backend/src/controllers/notificationService.js:19-24 | `keywords.some(regex => regex.test(text))` holds exactly when some marker occurs in the case-folded text |
| Classifier.SearchFromFindsOccurrence | backend/src/controllers/notificationService.js:5 | one pattern's `test` succeeds exactly when the pattern occurs at some position of the case-folded text |
| Classifier.BlankFieldNeverMatches | backend/src/controllers/notificationService.js:19-24 | a missing, null or empty field (searched as `"undefined"`, `"null"`, `""`) never matches |
| Classifier.BlankDescriptionDefersToTitle | backend/src/controllers/notificationService.js:18-38 | with a missing or empty description the verdict is the title's verdict alone |
| Classifier.MarkerInsideWordMatches | backend/src/controllers/notificationService.js:5 | patterns are unanchored and case-insensitive: "Alerts", "EXCLUSIVELY" and "Breaking: storm hits city" are breaking |
| Classifier.PlainTextDoesNotMatch | backend/src/controllers/notificationService.js:18-38 | empty fields and "Quarterly earnings report" / "Company profits rose" are not breaking |
| NewsTypes.FromJson | backend/src/controllers/notificationService.js:12-13 | a parsed array element is never `undefined` and writes back as the same JSON element |
| NotificationSpec.SaveRecords | backend/src/controllers/notificationService.js:44-47 | after a save the url is recorded, nothing recorded is lost, a second save of the same url changes nothing, and sockets, queue and emitted log are untouched |
| NotificationSpec.StoreAfterLoad | backend/src/controllers/notificationService.js:11-16 | writing back the set read from a cache file gives the file's elements again |
| NotificationSpec.RestartKeepsUrls | backend/src/controllers/notificationService.js:11-16 | a set reloaded from the file written for `notified` holds exactly the same url strings, never `undefined`, and `null` exactly when `notified` held `null` or `undefined` |
| NotificationSpec.LoadExamples | backend/src/controllers/notificationService.js:11-16 | a cache file `["u1"]` makes `u1` known and `u2` unknown; no file means nothing is known |
| NotificationSpec.DispatchOutcome | backend/src/controllers/notificationService.js:49-64 | an article without title or url changes nothing; a valid one is emitted as exactly `{title, url}` when a socket is connected and appended to the queue otherwise; the notified set and sockets never change |
| NotificationSpec.Flush | backend/src/controllers/notificationService.js:70-75 | the drain loop leaves the sockets and the notified set as they were |
| NotificationSpec.FlushDrains | backend/src/controllers/notificationService.js:70-75 | with a socket connected the drain ends with an empty queue, having emitted the queued valid articles in FIFO order, nothing else changed |
| NotificationSpec.FlushTwiceEmitsNothing | backend/src/controllers/notificationService.js:70-75 | a second drain right after the first changes nothing |
| NotificationSpec.OfflineFlushNeverEmpties | backend/src/controllers/notificationService.js:70-75 | with no socket connected every iteration re-queues what it shifted: the queue keeps its length and nothing is emitted, however many iterations run |
| NotificationSpec.ConnectDrains | backend/src/controllers/notificationService.js:78-83 | on connect the id is registered before the drain, the queue ends empty, every queued valid article is emitted in order, the notified set is unchanged |
| NotificationSpec.DisconnectRemovesOnlyThatId | backend/src/controllers/notificationService.js:84-87 | on disconnect only that id leaves the connection set; queue, emitted log and notified set are unchanged |
| NotificationSpec.EmptyPollChangesNothing | backend/src/controllers/notificationService.js:101-104 | a failed fetch, a response without articles and an empty batch change nothing |
| NotificationSpec.KnownUrlIsSkipped | backend/src/controllers/notificationService.js:106-112 | an article whose url is already recorded is skipped |
| NotificationSpec.BatchEffect | backend/src/controllers/notificationService.js:106-118 | a batch records the urls of the selected articles (also of those only queued) and broadcasts the selected valid ones in order when a socket is connected, or appends them to the queue in order when none is |
| NotificationSpec.SelectedAreFreshAndDistinct | backend/src/controllers/notificationService.js:106-118 | every article a batch dispatches passes the guard and had an unrecorded url, and no two of them share a url: a later duplicate in the same batch is skipped |
| NotificationSpec.FirstFreshIsSelected | backend/src/controllers/notificationService.js:106-118 | the first non-null, titled, breaking article of a batch carrying a given unrecorded url is dispatched; with `NotificationSpec.SelectedAreFreshAndDistinct`, of same-url articles the earliest is kept and the later ones skipped |
| NotificationSpec.SelectedComesFromBatch | backend/src/controllers/notificationService.js:106-118 | every article the batch loop dispatches is an article of the batch |
| NotificationSpec.BatchRecordsExactly | backend/src/controllers/notificationService.js:106-118 | after a batch a url is recorded iff it was before or some non-null, titled, breaking article of the batch carries it |
| NotificationSpec.OfflineBatchFlushedInOrder | backend/src/controllers/notificationService.js:49-75 | articles that arrive while nobody is connected are neither dropped nor reordered: the next connection emits the old queue, then the batch's valid selected articles in arrival order |
| NotificationSpec.OfflineArrivalsKeepOrder | backend/src/controllers/notificationService.js:78-118 | two breaking articles A then B arriving offline are emitted A, B when a client connects |
| NotificationSpec.StepKeepsNotified | backend/src/controllers/notificationService.js:44-47 | no tick, connection or disconnection removes a recorded url |
| NotificationSpec.RunKeepsNotified | backend/src/controllers/notificationService.js:44-47 | no sequence of events forgets a recorded url |
| NotificationSpec.RefetchIsSkipped | backend/src/controllers/notificationService.js:106-118 | once a breaking, titled article of a polled batch carries url `u`, `u` stays recorded through any later events, and no later batch, whatever else it holds, selects an article with url `u` again |
| NotificationSpec.StepKeepsConsistent | backend/src/controllers/notificationService.js:49-118 | every event keeps the invariant: items are queued only while no socket is connected, and every queued item is valid and already recorded |
| NotificationSpec.RunKeepsConsistent | backend/src/controllers/notificationService.js:11-118 | the service starts in that invariant and keeps it under any sequence of events |
| NotificationService.Service.constructor | backend/src/controllers/notificationService.js:7-16 | start-up loads the cache file when present, otherwise starts empty; the file mirrors the set |
| NotificationService.Service.AlreadyNotified | backend/src/controllers/notificationService.js:40-42 | answers whether the url is in the notified set |
| NotificationService.Service.SaveAsNotified | backend/src/controllers/notificationService.js:44-47 | adds the url and rewrites the cache file so that it mirrors the set again |
| NotificationService.Service.QueueNotification | backend/src/controllers/notificationService.js:66-68 | appends the article to the queue; nothing else changes |
| NotificationService.Service.NotifyUsers | backend/src/controllers/notificationService.js:49-64 | moves the state as `Dispatch`: emit, enqueue or ignore |
| NotificationService.Service.SendQueuedNotifications | backend/src/controllers/notificationService.js:70-75 | with a socket connected the shift loop terminates and moves the state as `Flush` |
| NotificationService.Service.OnConnect | backend/src/controllers/notificationService.js:78-83 | moves the state as `Connect` |
| NotificationService.Service.OnDisconnect | backend/src/controllers/notificationService.js:84-87 | moves the state as `Disconnect` |
| NotificationService.Service.CheckForBreakingNews | backend/src/controllers/notificationService.js:91-122 | the batch loop moves the state as `Poll` and keeps the cache file mirroring the set |
| VerifyUser.VerifyToken | backend/src/utils/verifyUser.js:4-22 | 401 exactly when the header is missing or lacks the `"Bearer "` prefix, without consulting the verifier; otherwise 403 exactly when the verifier rejects the token, and `next()` with `user` set to the payload exactly when it accepts; the request is untouched on both errors |
| VerifyUser.FirstSpace | backend/src/utils/verifyUser.js:13 | finds the first space of a string |
| VerifyUser.BearerFields | backend/src/utils/verifyUser.js:8-13 | a header starting with `"Bearer "` splits into `"Bearer"` followed by the fields of the rest |
| VerifyUser.JoinSplit | backend/src/utils/verifyUser.js:13 | joining the fields of `split(" ")` with spaces gives the string back |
| VerifyUser.SplitJoin | backend/src/utils/verifyUser.js:13 | splitting the join of space-free fields gives the fields back |
| VerifyUser.SplitFieldsHaveNoSpace | backend/src/utils/verifyUser.js:13 | no field of `split(" ")` contains a space |
| VerifyUser.TokenIsFirstWord | backend/src/utils/verifyUser.js:13 | the token is the longest space-free prefix of what follows `"Bearer "` |
| VerifyUser.FirstOfTwoWords | backend/src/utils/verifyUser.js:13 | whatever follows the next space after the token is not part of it |
| VerifyUser.TokenExamples | backend/src/utils/verifyUser.js:13 | `"Bearer abc"` and `"Bearer abc def"` give `"abc"`, `"Bearer "` gives `""` |
| NewsTypes.Truthy | backend/src/controllers/notificationService.js:50 | JavaScript truthiness of a field: only a non-empty string is truthy |
| NewsTypes.ToString | backend/src/controllers/notificationService.js:20-23 | `String(v)`, the text `regex.test` searches: `"undefined"`, `"null"` or the string itself |
| NewsTypes.ToJson | backend/src/controllers/notificationService.js:46 | how `JSON.stringify` writes a set element inside an array (`undefined` and `null` become `null`); `NotificationSpec.RestartKeepsUrls` states the round trip |
| Classifier.MatchesAt | backend/src/controllers/notificationService.js:5 | does the pattern match the text at a start position, comparing ASCII-lower-cased characters; `Classifier.MatchesAtIsSliceEquality` proves it is slice equality on the folded text |
| Classifier.SearchFrom | backend/src/controllers/notificationService.js:20 | one pattern's `regex.test`: try every start position in turn; `Classifier.SearchFromFindsOccurrence` gives its meaning |
| Classifier.AnyFrom | backend/src/controllers/notificationService.js:19-24 | `breakingKeywords.some(...)` over the four patterns in order; `Classifier.AnyFromFindsMarker` gives its meaning |
| Classifier.IsBreakingNews | backend/src/controllers/notificationService.js:5-38 | `isBreakingNews`: the title test or the description test, each trying the constant `Classifier.Keywords` (`breaking`, `urgent`, `alert`, `exclusive`, in that order); `Classifier.IsBreakingNewsSpec` proves it equal to the reference definition |
| NotificationSpec.Loaded | backend/src/controllers/notificationService.js:12-13 | the notified set read from the cache file's JSON array |
| NotificationSpec.Stored | backend/src/controllers/notificationService.js:46 | the elements of the JSON array written for a notified set |
| NotificationSpec.Initial | backend/src/controllers/notificationService.js:7-16 | start-up state: the loaded set when the cache file exists, otherwise empty; no sockets, empty queue, nothing emitted |
| NotificationSpec.Save | backend/src/controllers/notificationService.js:44-47 | `saveAsNotified`: the url added to the notified set; properties in `NotificationSpec.SaveRecords` |
| NotificationSpec.HasTitleAndUrl | backend/src/controllers/notificationService.js:50 | the `notifyUsers` guard on a present article: truthy title and truthy url |
| NotificationSpec.Enqueue | backend/src/controllers/notificationService.js:66-68 | `queueNotification`: the article appended at the tail of the queue |
| NotificationSpec.Dispatch | backend/src/controllers/notificationService.js:49-64 | `notifyUsers`: emit, enqueue or ignore; properties in `NotificationSpec.DispatchOutcome` |
| NotificationSpec.FlushStep | backend/src/controllers/notificationService.js:72-73 | one iteration of the drain loop: shift the head off the queue and hand it to `notifyUsers` |
| NotificationSpec.FlushSteps | backend/src/controllers/notificationService.js:71-74 | at most `n` iterations of the drain loop, whatever the connection set; used by `NotificationSpec.OfflineFlushNeverEmpties` |
| NotificationSpec.Connect | backend/src/controllers/notificationService.js:78-83 | the `connection` handler: add the id, then drain; properties in `NotificationSpec.ConnectDrains` |
| NotificationSpec.Disconnect | backend/src/controllers/notificationService.js:84-87 | the `disconnect` handler: delete the id; properties in `NotificationSpec.DisconnectRemovesOnlyThatId` |
| NotificationSpec.IsCandidate | backend/src/controllers/notificationService.js:108-110 | the part of the batch-loop guard before the dedup test: non-null, titled, breaking |
| NotificationSpec.Qualifies | backend/src/controllers/notificationService.js:107-112 | the whole batch-loop guard: a candidate whose url is not yet recorded |
| NotificationSpec.ProcessArticle | backend/src/controllers/notificationService.js:107-117 | one iteration of the batch loop: if the guard holds, `notifyUsers` then `saveAsNotified` |
| NotificationSpec.ProcessBatch | backend/src/controllers/notificationService.js:106-118 | the batch loop over the articles in order; closed form in `NotificationSpec.BatchEffect` |
| NotificationSpec.Poll | backend/src/controllers/notificationService.js:91-122 | one polling cycle given the fetch result: nothing happens for a failed fetch or an empty or missing article list, otherwise the batch loop runs |
| NotificationSpec.Step | backend/src/controllers/notificationService.js:77-122 | one event of the running service: a polling cycle, a connection or a disconnection |
| NotificationSpec.Run | backend/src/controllers/notificationService.js:77-122 | a sequence of events applied in order; `NotificationSpec.RunKeepsNotified` and `NotificationSpec.RunKeepsConsistent` are about it |
| NotificationSpec.IsDeliverable | backend/src/controllers/notificationService.js:50 | the full `notifyUsers` guard `article && article.title && article.url` |
| NotificationSpec.NoticeOf | backend/src/controllers/notificationService.js:53-56 | the `breaking-news` payload `{title: article.title, url: article.url}` |
| Classifier.Lower | backend/src/controllers/notificationService.js:5 | the case folding of the `/i` flag for these all-ASCII patterns: ASCII upper-case letters become lower case, every other character stays |
| VerifyUser.HasBearerHeader | backend/src/utils/verifyUser.js:8 | the guard `authHeader && authHeader.startsWith("Bearer ")` |
| VerifyUser.Split | backend/src/utils/verifyUser.js:13 | `s.split(" ")`: always at least one field; round trips in `VerifyUser.JoinSplit` and `VerifyUser.SplitJoin` |
| VerifyUser.Join | backend/src/utils/verifyUser.js:13 | `fields.join(" ")`, the inverse used to characterise `VerifyUser.Split` |
| VerifyUser.ExtractToken | backend/src/utils/verifyUser.js:13 | `authHeader.split(" ")[1]` for a header with the prefix; meaning in `VerifyUser.TokenIsFirstWord` |

## Left out

- The HTTP request to the news source and the shape of its response: a polling cycle takes
  what the fetch produced as a parameter (`None` for a failed request or a response without
  an `articles` array).
- File-system I/O: the cache file is a ghost set of its JSON elements; the order of the
  written array is not modelled, and neither is a `writeFileSync` that throws in the middle
  of a batch (the rest of the batch would then be skipped by the catch block).
- Socket.io: `io.emit` is an append to a log of emitted notices, `io.on` registration is
  the `OnConnect`/`OnDisconnect` methods; which sockets receive an event is not modelled.
- The timer that triggers each polling cycle and its interval; the console logging.
- A malformed cache file at start-up: the code throws while loading the module when the file
  is not valid JSON or not an array (`JSON.parse`, `new Set(data)`), and an array holding
  numbers, objects or nested arrays would put those values in the notified set. The
  constructor takes the file as an array whose elements are `null` or strings.
- Concurrency: each handler and each polling cycle runs to completion before the next, as
  on Node's single thread; the `await` inside a polling cycle is collapsed into its parameter.
- `jwt.verify` (signature, secret, expiry): an arbitrary function from token to verdict.
- Non-string article fields and headers (numbers, objects): every field is `undefined`,
  `null` or a string.
- NotificationService.Service.SendQueuedNotifications: requires a connected socket, since
  its only caller registers one first; with none the loop never ends
  (`NotificationSpec.OfflineFlushNeverEmpties`).
- The rest of the repository (news and auth controllers, validators, routes, the
  summarisation service, the frontend) is not part of this model.
