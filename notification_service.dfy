/**
 * The breaking-news notification service as the object it is: three pieces of mutable state
 * updated in place by the socket handlers and the polling cycle. Each method is proved to
 * move the abstract state exactly as the matching function of NotificationSpec does.
 */
module NotificationService {
  import opened NewsTypes
  import opened Classifier
  import opened NotificationSpec

  class Service {
    /** The urls already announced (a JavaScript `Set`, so `undefined` can be a member). */
    var notifiedArticles: set<JsValue>
    /** The ids of the currently connected sockets. */
    var connectedSockets: set<SocketId>
    /** Articles waiting for a first connection, oldest first. */
    var notificationQueue: seq<Article>
    /** Every `breaking-news` event emitted so far, in order. */
    var emitted: seq<Notice>
    /** The elements of the JSON array in the cache file. */
    ghost var cacheFile: set<JsonValue>

    function Abs(): State
      reads this
    {
      State(notifiedArticles, connectedSockets, notificationQueue, emitted)
    }

    /** The cache file mirrors the notified set after every save. */
    ghost predicate Valid()
      reads this
    {
      cacheFile == Stored(notifiedArticles)
    }

    /** Module start-up: load the cache file when it exists, otherwise start empty and write `[]`. */
    constructor (cache: Option<seq<JsonValue>>)
      ensures Valid()
      ensures Abs() == Initial(cache)
    {
      connectedSockets := {};
      notificationQueue := [];
      emitted := [];
      if cache.Some? {
        notifiedArticles := Loaded(cache.value);
        cacheFile := set j | j in cache.value;
        StoreAfterLoad(cache.value);
      } else {
        notifiedArticles := {};
        cacheFile := {};
      }
    }

    /** `alreadyNotified(url)`. */
    method AlreadyNotified(url: JsValue) returns (seen: bool)
      ensures seen <==> url in notifiedArticles
    {
      seen := url in notifiedArticles;
    }

    /** `saveAsNotified(url)`: add the url, then rewrite the cache file. */
    method SaveAsNotified(url: JsValue)
      requires Valid()
      modifies this
      ensures Valid()
      ensures Abs() == Save(old(Abs()), url)
    {
      notifiedArticles := notifiedArticles + {url};
      cacheFile := Stored(notifiedArticles);
    }

    /** `queueNotification(article)`. */
    method QueueNotification(article: Article)
      requires Valid()
      modifies this
      ensures Valid()
      ensures Abs() == Enqueue(old(Abs()), article)
      ensures cacheFile == old(cacheFile)
    {
      notificationQueue := notificationQueue + [article];
    }

    /** `notifyUsers(io, article)`. */
    method NotifyUsers(article: Option<Article>)
      requires Valid()
      modifies this
      ensures Valid()
      ensures Abs() == Dispatch(old(Abs()), article)
      ensures cacheFile == old(cacheFile)
    {
      if article.Some? && Truthy(article.value.title) && Truthy(article.value.url) {
        if |connectedSockets| > 0 {
          emitted := emitted + [Notice(article.value.title.s, article.value.url.s)];
        } else {
          QueueNotification(article.value);
        }
      }
    }

    /**
     * `sendQueuedNotifications(io)`. The loop ends only because a socket is connected: each
     * shifted article is then emitted rather than queued again.
     */
    method SendQueuedNotifications()
      requires Valid()
      requires connectedSockets != {}
      modifies this
      ensures Valid()
      ensures Abs() == Flush(old(Abs()))
      ensures cacheFile == old(cacheFile)
    {
      while |notificationQueue| > 0
        invariant Valid()
        invariant connectedSockets == old(connectedSockets)
        invariant cacheFile == old(cacheFile)
        invariant Flush(Abs()) == Flush(old(Abs()))
        decreases |notificationQueue|
      {
        var article := notificationQueue[0];
        notificationQueue := notificationQueue[1..];
        NotifyUsers(Some(article));
      }
    }

    /** The `connection` handler: register the socket, then drain the queue. */
    method OnConnect(id: SocketId)
      requires Valid()
      modifies this
      ensures Valid()
      ensures Abs() == Connect(old(Abs()), id)
      ensures cacheFile == old(cacheFile)
    {
      connectedSockets := connectedSockets + {id};
      SendQueuedNotifications();
    }

    /** The `disconnect` handler. */
    method OnDisconnect(id: SocketId)
      requires Valid()
      modifies this
      ensures Valid()
      ensures Abs() == Disconnect(old(Abs()), id)
      ensures cacheFile == old(cacheFile)
    {
      connectedSockets := connectedSockets - {id};
    }

    /**
     * One polling cycle of `checkForBreakingNews(io)`, given what the fetch produced. For each
     * article in order: skip it unless it is non-null, titled, breaking and not yet notified;
     * otherwise dispatch it and record its url.
     */
    method CheckForBreakingNews(response: Option<seq<Option<Article>>>)
      requires Valid()
      modifies this
      ensures Valid()
      ensures Abs() == Poll(old(Abs()), response)
    {
      if response.None? || |response.value| == 0 {
        return;
      }
      var articles := response.value;
      for i := 0 to |articles|
        invariant Valid()
        invariant ProcessBatch(Abs(), articles[i..]) == ProcessBatch(old(Abs()), articles)
      {
        var article := articles[i];
        assert articles[i..][1..] == articles[i + 1..];
        if article.Some? && Truthy(article.value.title) && IsBreakingNews(article.value) {
          var seen := AlreadyNotified(article.value.url);
          if !seen {
            NotifyUsers(article);
            SaveAsNotified(article.value.url);
          }
        }
      }
    }
  }
}
