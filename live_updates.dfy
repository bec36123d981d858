/**
 * The live-score handler of `useLiveMatchUpdates`: a decoded WebSocket
 * message of type MATCH_UPDATE patches the cached match list of the match's
 * own category, replacing the entries with the same id.
 */
module LiveUpdates {
  import opened MatchRecord

  /** A decoded `{type, payload}` envelope; `kind` is its `type`. */
  datatype Message = Message(kind: string, payload: Match)

  /** The cached match lists, keyed by category id (the query key is the
      match-list path together with that id). A missing key is an absent
      (`undefined`) cache entry. */
  type Cache = map<int, seq<Match>>

  /** `oldData.map(m => m.id === u.id ? u : m)`. */
  function ReplaceById(list: seq<Match>, u: Match): (r: seq<Match>)
    ensures |r| == |list|
    ensures forall i :: 0 <= i < |list| && list[i].id == u.id ==> r[i] == u
    ensures forall i :: 0 <= i < |list| && list[i].id != u.id ==> r[i] == list[i]
  {
    if list == [] then []
    else [if list[0].id == u.id then u else list[0]] + ReplaceById(list[1..], u)
  }

  /** The `setQueryData` updater: an absent entry becomes `[u]`. */
  function Updater(oldData: Option<seq<Match>>, u: Match): seq<Match>
  {
    match oldData
    case None => [u]
    case Some(list) => ReplaceById(list, u)
  }

  /** `!categoryId || u.categoryId === categoryId`: a view without a
      category (or with category 0) takes every update. */
  predicate Pertains(viewCategory: Option<int>, u: Match)
  {
    !Truthy(viewCategory) || viewCategory.value == u.categoryId
  }

  /** The cache entry of a category, `undefined` when absent. */
  function Lookup(cache: Cache, c: int): Option<seq<Match>>
  {
    if c in cache then Some(cache[c]) else None
  }

  /** The handler for one decoded message, seen by a view on `viewCategory`. */
  function OnMessage(cache: Cache, viewCategory: Option<int>, msg: Message): (r: Cache)
    ensures msg.kind != "MATCH_UPDATE" ==> r == cache
    ensures !Pertains(viewCategory, msg.payload) ==> r == cache
    ensures msg.kind == "MATCH_UPDATE" && Pertains(viewCategory, msg.payload) ==>
              var c := msg.payload.categoryId;
              && r.Keys == cache.Keys + {c}
              && (forall d :: d in cache && d != c ==> r[d] == cache[d])
              && (c !in cache ==> r[c] == [msg.payload])
              && (c in cache ==> r[c] == ReplaceById(cache[c], msg.payload))
  {
    if msg.kind == "MATCH_UPDATE" && Pertains(viewCategory, msg.payload) then
      var c := msg.payload.categoryId;
      cache[c := Updater(Lookup(cache, c), msg.payload)]
    else cache
  }

  /** An update whose id is not in the list is not appended: the list comes
      back unchanged. */
  lemma ReplaceByIdAbsent(list: seq<Match>, u: Match)
    requires forall i :: 0 <= i < |list| ==> list[i].id != u.id
    ensures ReplaceById(list, u) == list
  {
  }

  /** Replacing twice is replacing once. */
  lemma ReplaceByIdIdempotent(list: seq<Match>, u: Match)
    ensures ReplaceById(ReplaceById(list, u), u) == ReplaceById(list, u)
  {
  }

  /** The same message delivered twice leaves the cache as one delivery does. */
  lemma OnMessageIdempotent(cache: Cache, viewCategory: Option<int>, msg: Message)
    ensures OnMessage(OnMessage(cache, viewCategory, msg), viewCategory, msg)
            == OnMessage(cache, viewCategory, msg)
  {
    if msg.kind == "MATCH_UPDATE" && Pertains(viewCategory, msg.payload) {
      var c := msg.payload.categoryId;
      var once := OnMessage(cache, viewCategory, msg);
      if c in cache {
        ReplaceByIdIdempotent(cache[c], msg.payload);
      } else {
        assert ReplaceById([msg.payload], msg.payload) == [msg.payload];
      }
      assert OnMessage(once, viewCategory, msg) == once[c := ReplaceById(once[c], msg.payload)];
    }
  }

  /** A view on another category ignores the update, even though its own
      entry would not have been touched anyway: the entry of the update's
      category is left stale. */
  lemma OtherViewIgnores(cache: Cache, viewCategory: int, msg: Message)
    requires viewCategory != 0 && viewCategory != msg.payload.categoryId
    ensures OnMessage(cache, Some(viewCategory), msg) == cache
  {
  }
}
