/** The friend routes of routes/friends.js over an in-memory store: Friend
    records in insertion order and the user documents they refer to. Each
    handler runs after authentication, with `me` the caller's user id; the
    route answers with a JSON body, an error status and message, or an
    unhandled exception. */
module SocialStore {
  import opened Wrappers
  import opened Progress

  /** A Friend document (models/Friend.js). `kind` is its `type`, `None` when the
      property is absent or null; `projectId` and `projectTitle` are `None` when
      null. */
  datatype FriendRecord = FriendRecord(
    rid: nat, requester: string, recipient: string, status: string,
    kind: Option<string>, projectId: Option<string>, projectTitle: Option<string>)

  /** An element of a user's `watchedProjects` (models/user.js:3-13). */
  datatype WatchEntry = WatchEntry(projectId: string, count: int, watchedWith: seq<string>, memories: seq<Memory>)

  datatype UserDoc = UserDoc(username: string, watchedProjects: seq<WatchEntry>)

  /** What a route answers: a JSON body, an error status with its `error`
      message, or an exception the handler does not catch. */
  datatype Reply<T> = Ok(value: T) | Err(status: int, error: string) | Fault

  // ---------------------------------------------------------------------
  // Queries

  /** The record joins `a` and `b`, in either direction. */
  predicate Links(r: FriendRecord, a: string, b: string) {
    (r.requester == a && r.recipient == b) || (r.requester == b && r.recipient == a)
  }

  /** `type` is 'friend', absent or null. */
  predicate FriendType(r: FriendRecord) {
    r.kind == Some("friend") || r.kind.None?
  }

  /** The filter documents the routes pass to `findOne`. */
  datatype Query =
    | AnyLink(a: string, b: string)                              // routes/friends.js:36-41
    | PendingTo(me: string, requestId: nat)                      // routes/friends.js:60-61
    | Friendship(a: string, b: string)                           // routes/friends.js:183-200
    | PendingWatch(requester: string, recipient: string, projectId: string) // routes/friends.js:207-213
    | FriendLink(a: string, b: string)                           // routes/friends.js:230-246

  predicate Matches(q: Query, r: FriendRecord) {
    match q
    case AnyLink(a, b) => Links(r, a, b)
    case PendingTo(me, id) => r.rid == id && r.recipient == me && r.status == "pending"
    case Friendship(a, b) => Links(r, a, b) && r.status == "accepted" && FriendType(r)
    case PendingWatch(a, b, pid) =>
      r.requester == a && r.recipient == b && r.status == "pending" && r.kind == Some("watch") && r.projectId == Some(pid)
    case FriendLink(a, b) => Links(r, a, b) && FriendType(r)
  }

  /** `findOne`: the index of the first record, in insertion order, that matches. */
  function FindRecord(rs: seq<FriendRecord>, q: Query): (r: Option<nat>)
    ensures r.None? <==> forall i :: 0 <= i < |rs| ==> !Matches(q, rs[i])
    ensures r.Some? ==> r.value < |rs| && Matches(q, rs[r.value]) && forall j :: 0 <= j < r.value ==> !Matches(q, rs[j])
  {
    if rs == [] then None
    else if Matches(q, rs[0]) then Some(0)
    else
      var rest := FindRecord(rs[1..], q);
      assert forall i :: 1 <= i < |rs| ==> rs[i] == rs[1..][i - 1];
      if rest.None? then None else Some(rest.value + 1)
  }

  /** `s` without its element at `i`. */
  function RemoveAt<T>(s: seq<T>, i: nat): (r: seq<T>)
    requires i < |s|
    ensures |r| == |s| - 1
    ensures forall j :: 0 <= j < i ==> r[j] == s[j]
    ensures forall j :: i <= j < |r| ==> r[j] == s[j + 1]
  {
    s[..i] + s[i + 1..]
  }

  // ---------------------------------------------------------------------
  // The watch-acceptance merge (routes/friends.js:74-106)

  /** `watchedProjects.find(e => e.projectId === pid)`. */
  function FindEntry(es: seq<WatchEntry>, pid: string): (r: Option<nat>)
    ensures r.None? <==> forall i :: 0 <= i < |es| ==> es[i].projectId != pid
    ensures r.Some? ==> r.value < |es| && es[r.value].projectId == pid && forall j :: 0 <= j < r.value ==> es[j].projectId != pid
  {
    if es == [] then None
    else if es[0].projectId == pid then Some(0)
    else
      var rest := FindEntry(es[1..], pid);
      assert forall i :: 1 <= i < |es| ==> es[i] == es[1..][i - 1];
      if rest.None? then None else Some(rest.value + 1)
  }

  /** One user's side of an accepted watch request: a new entry watched once with
      `name`, or one more viewing of the first entry for the project, with `name`
      added if it is missing. */
  function MergeWatch(es: seq<WatchEntry>, pid: string, name: string): seq<WatchEntry> {
    match FindEntry(es, pid)
    case None => es + [WatchEntry(pid, 1, [name], [])]
    case Some(i) =>
      es[i := es[i].(count := es[i].count + 1, watchedWith := AddName(es[i].watchedWith, name))]
  }

  /** After the merge the project has an entry naming `name`; a new one is watched
      once and goes last, an existing one gains exactly one viewing, keeps its
      memories and co-viewers and gains `name` only if it was missing. No other
      entry changes. */
  lemma MergeWatchSpec(es: seq<WatchEntry>, pid: string, name: string)
    ensures var r := MergeWatch(es, pid, name);
      FindEntry(r, pid).Some? && name in r[FindEntry(r, pid).value].watchedWith &&
      (FindEntry(es, pid).None? ==>
        r == es + [WatchEntry(pid, 1, [name], [])] && FindEntry(r, pid) == Some(|es|)) &&
      (FindEntry(es, pid).Some? ==>
        var k := FindEntry(es, pid).value;
        |r| == |es| && FindEntry(r, pid) == Some(k) &&
        r[k].count == es[k].count + 1 && r[k].memories == es[k].memories &&
        (forall x :: x in es[k].watchedWith ==> x in r[k].watchedWith) &&
        (name in es[k].watchedWith ==> r[k].watchedWith == es[k].watchedWith) &&
        (name !in es[k].watchedWith ==> r[k].watchedWith == es[k].watchedWith + [name]) &&
        forall j :: 0 <= j < |es| && j != k ==> r[j] == es[j])
  {
    var r := MergeWatch(es, pid, name);
    if FindEntry(es, pid).None? {
      assert r[|es|].projectId == pid;
      assert forall j :: 0 <= j < |es| ==> r[j] == es[j];
    } else {
      var k := FindEntry(es, pid).value;
      assert forall j :: 0 <= j < |es| && j != k ==> r[j] == es[j];
      assert r[k].projectId == pid && name in r[k].watchedWith;
    }
  }

  // ---------------------------------------------------------------------
  // Read-only routes

  /** The caller's side of a record that `/list` returns. */
  predicate ListedFor(r: FriendRecord, me: string) {
    (r.requester == me || r.recipient == me) && r.status == "accepted" && FriendType(r)
  }

  /** The other party: the recipient when the caller sent the request. */
  function Counterpart(r: FriendRecord, me: string): string {
    if r.requester == me then r.recipient else r.requester
  }

  /** A listed record whose populated user documents are missing, so that
      reading `_id` from null throws. */
  predicate Dangling(r: FriendRecord, me: string, users: map<string, UserDoc>) {
    r.requester !in users || Counterpart(r, me) !in users
  }

  /** `/list` (routes/friends.js:119-143): `{id, username}` of the other party of
      every accepted friend-type record involving the caller, in record order. */
  function FriendList(rs: seq<FriendRecord>, users: map<string, UserDoc>, me: string): Reply<seq<(string, string)>> {
    if rs == [] then Ok([])
    else
      var rest := FriendList(rs[..|rs| - 1], users, me);
      var r := rs[|rs| - 1];
      if !ListedFor(r, me) then rest
      else if !rest.Ok? || Dangling(r, me, users) then Fault
      else Ok(rest.value + [(Counterpart(r, me), users[Counterpart(r, me)].username)])
  }

  /** `/list` fails exactly when a listed record refers to a missing user, and
      otherwise lists exactly the other parties of the caller's friendships. */
  lemma {:induction false} FriendListSpec(rs: seq<FriendRecord>, users: map<string, UserDoc>, me: string)
    ensures FriendList(rs, users, me).Err? == false
    ensures FriendList(rs, users, me).Fault? <==>
      exists i :: 0 <= i < |rs| && ListedFor(rs[i], me) && Dangling(rs[i], me, users)
    ensures FriendList(rs, users, me).Ok? ==> forall f :: f in FriendList(rs, users, me).value <==>
      exists i :: 0 <= i < |rs| && ListedFor(rs[i], me) && f == (Counterpart(rs[i], me), users[Counterpart(rs[i], me)].username)
  {
    if rs != [] {
      var init := rs[..|rs| - 1];
      FriendListSpec(init, users, me);
      assert forall i :: 0 <= i < |init| ==> init[i] == rs[i];
      var last := |rs| - 1;
      if FriendList(rs, users, me).Ok? && !ListedFor(rs[last], me) {
        assert forall f :: f in FriendList(rs, users, me).value <==> f in FriendList(init, users, me).value;
      }
    }
  }

  /** With no record linking a user to itself, nobody is listed as their own friend. */
  lemma {:induction false} NoSelfFriend(rs: seq<FriendRecord>, users: map<string, UserDoc>, me: string)
    requires forall i :: 0 <= i < |rs| ==> rs[i].requester != rs[i].recipient
    ensures FriendList(rs, users, me).Ok? ==> forall f :: f in FriendList(rs, users, me).value ==> f.0 != me
  {
    FriendListSpec(rs, users, me);
  }

  /** `/pending` (routes/friends.js:49-55): the requests addressed to the caller
      that are still pending, friend and watch requests alike. */
  function PendingFor(rs: seq<FriendRecord>, me: string): (r: seq<FriendRecord>)
    ensures forall x :: x in r <==> x in rs && x.recipient == me && x.status == "pending"
  {
    if rs == [] then []
    else (if rs[0].recipient == me && rs[0].status == "pending" then [rs[0]] else []) + PendingFor(rs[1..], me)
  }

  // ---------------------------------------------------------------------
  // Facts about the request guards

  /** The record /request creates. */
  function NewRequest(rid: nat, me: string, recipient: string): FriendRecord {
    FriendRecord(rid, me, recipient, "pending", Some("friend"), None, None)
  }

  /** The record /watch-request creates. */
  function NewWatchRequest(rid: nat, me: string, recipient: string, pid: string, title: Option<string>): FriendRecord {
    FriendRecord(rid, me, recipient, "pending", Some("watch"), Some(pid), title)
  }

  /** The duplicate check of /request looks in both directions. */
  lemma AnyLinkSymmetric(rs: seq<FriendRecord>, a: string, b: string)
    ensures FindRecord(rs, AnyLink(a, b)).None? <==> FindRecord(rs, AnyLink(b, a)).None?
  {
  }

  /** Once a request between two users exists, every later request between them,
      in either direction, is refused. */
  lemma SecondRequestRefused(rs: seq<FriendRecord>, rid: nat, a: string, b: string, more: seq<FriendRecord>)
    ensures FindRecord(rs + [NewRequest(rid, a, b)] + more, AnyLink(a, b)).Some?
    ensures FindRecord(rs + [NewRequest(rid, a, b)] + more, AnyLink(b, a)).Some?
  {
    var all := rs + [NewRequest(rid, a, b)] + more;
    assert Matches(AnyLink(a, b), all[|rs|]) && Matches(AnyLink(b, a), all[|rs|]);
  }

  /** Once a watch request is pending, the same request again is refused. */
  lemma SecondWatchRequestRefused(rs: seq<FriendRecord>, rid: nat, a: string, b: string, pid: string, title: Option<string>)
    ensures FindRecord(rs + [NewWatchRequest(rid, a, b, pid, title)], PendingWatch(a, b, pid)).Some?
  {
    assert Matches(PendingWatch(a, b, pid), (rs + [NewWatchRequest(rid, a, b, pid, title)])[|rs|]);
  }

  /** A pending record can only be answered by its recipient, and only once. */
  lemma RespondOnlyOnce(rs: seq<FriendRecord>, i: nat, me: string, action: string)
    requires i < |rs| && action != "pending"
    requires forall j :: 0 <= j < |rs| && j != i ==> rs[j].rid != rs[i].rid
    ensures FindRecord(rs, PendingTo(me, rs[i].rid)).Some? ==> rs[i].recipient == me
    ensures FindRecord(rs[i := rs[i].(status := action)], PendingTo(me, rs[i].rid)).None?
  {
  }

  // ---------------------------------------------------------------------
  // The store

  class FriendStore {
    /** The Friend collection, in insertion order. */
    var records: seq<FriendRecord>
    /** The User collection by id. */
    var users: map<string, UserDoc>
    /** The id the next created record gets. */
    var nextRid: nat

    /** Record ids are unique and below `nextRid`, and no record links a user to
        itself. */
    predicate Valid()
      reads this
    {
      (forall i :: 0 <= i < |records| ==> records[i].rid < nextRid && records[i].requester != records[i].recipient) &&
      (forall i, j :: 0 <= i < j < |records| ==> records[i].rid != records[j].rid)
    }

    constructor (users: map<string, UserDoc>)
      ensures Valid() && records == [] && this.users == users && nextRid == 0
    {
      records := [];
      this.users := users;
      nextRid := 0;
    }

    /** Append a record with a fresh id. */
    method Create(r: FriendRecord) returns (created: FriendRecord)
      requires Valid() && r.requester != r.recipient
      modifies this`records, this`nextRid
      ensures Valid() && created == r.(rid := old(nextRid))
      ensures records == old(records) + [created] && nextRid == old(nextRid) + 1
    {
      created := r.(rid := nextRid);
      records := records + [created];
      nextRid := nextRid + 1;
    }

    /** `/request` (routes/friends.js:31-46). */
    method Request(me: string, recipientId: string) returns (reply: Reply<FriendRecord>)
      requires Valid()
      modifies this`records, this`nextRid
      ensures Valid()
      ensures recipientId == me ==>
        reply == Err(400, "You can't add yourself") && records == old(records) && nextRid == old(nextRid)
      ensures recipientId != me && FindRecord(old(records), AnyLink(me, recipientId)).Some? ==>
        reply == Err(400, "Request already exists") && records == old(records) && nextRid == old(nextRid)
      ensures recipientId != me && FindRecord(old(records), AnyLink(me, recipientId)).None? ==>
        reply == Ok(NewRequest(old(nextRid), me, recipientId)) &&
        records == old(records) + [NewRequest(old(nextRid), me, recipientId)] && nextRid == old(nextRid) + 1
    {
      if recipientId == me {
        return Err(400, "You can't add yourself");
      }
      if FindRecord(records, AnyLink(me, recipientId)).Some? {
        return Err(400, "Request already exists");
      }
      var created := Create(NewRequest(0, me, recipientId));
      reply := Ok(created);
    }

    /** `/respond` (routes/friends.js:58-116): only a pending record addressed to
        the caller changes; its status becomes `action`. An accepted watch request
        is merged into both users' entries and then deleted. */
    method Respond(me: string, requestId: nat, action: string) returns (reply: Reply<FriendRecord>)
      requires Valid()
      modifies this`records, this`users
      ensures Valid() && nextRid == old(nextRid)
      ensures FindRecord(old(records), PendingTo(me, requestId)).None? ==>
        reply == Err(404, "Request not found") && records == old(records) && users == old(users)
      ensures FindRecord(old(records), PendingTo(me, requestId)).Some? ==>
        var i := FindRecord(old(records), PendingTo(me, requestId)).value;
        var upd := old(records)[i].(status := action);
        if !(upd.kind == Some("watch") && action == "accepted" && upd.projectId.Some? && upd.projectId.value != "") then
          reply == Ok(upd) && records == old(records)[i := upd] && users == old(users)
        else if me !in old(users) || upd.requester !in old(users) then
          reply == Fault && records == old(records)[i := upd] && users == old(users)
        else
          var pid := upd.projectId.value;
          var recipient := old(users)[me];
          var requester := old(users)[upd.requester];
          reply == Ok(upd) && records == RemoveAt(old(records), i) &&
          users == old(users)
            [me := recipient.(watchedProjects := MergeWatch(recipient.watchedProjects, pid, requester.username))]
            [upd.requester := requester.(watchedProjects := MergeWatch(requester.watchedProjects, pid, recipient.username))]
    {
      var found := FindRecord(records, PendingTo(me, requestId));
      if found.None? {
        return Err(404, "Request not found");
      }
      var i := found.value;
      var upd := records[i].(status := action);
      records := records[i := upd];
      if upd.kind == Some("watch") && action == "accepted" && upd.projectId.Some? && upd.projectId.value != "" {
        if me !in users || upd.requester !in users {
          return Fault;
        }
        var pid := upd.projectId.value;
        var recipient := users[me];
        var requester := users[upd.requester];
        var recipientEntries := MergeWatch(recipient.watchedProjects, pid, requester.username);
        var requesterEntries := MergeWatch(requester.watchedProjects, pid, recipient.username);
        users := users[me := recipient.(watchedProjects := recipientEntries)];
        users := users[upd.requester := requester.(watchedProjects := requesterEntries)];
        records := RemoveAt(records, i);
      }
      reply := Ok(upd);
    }

    /** `/watch-request` (routes/friends.js:175-226). */
    method WatchRequest(me: string, recipientId: string, projectId: string, projectTitle: Option<string>)
      returns (reply: Reply<string>)
      requires Valid()
      modifies this`records, this`nextRid
      ensures Valid()
      ensures FindRecord(old(records), Friendship(me, recipientId)).None? ==>
        reply == Err(403, "Not friends") && records == old(records) && nextRid == old(nextRid)
      ensures (FindRecord(old(records), Friendship(me, recipientId)).Some? &&
        FindRecord(old(records), PendingWatch(me, recipientId, projectId)).Some?) ==>
        reply == Err(400, "Already sent") && records == old(records) && nextRid == old(nextRid)
      ensures (FindRecord(old(records), Friendship(me, recipientId)).Some? &&
        FindRecord(old(records), PendingWatch(me, recipientId, projectId)).None?) ==>
        reply == Ok("Request sent") && nextRid == old(nextRid) + 1 &&
        records == old(records) + [NewWatchRequest(old(nextRid), me, recipientId, projectId, projectTitle)]
    {
      var friendship := FindRecord(records, Friendship(me, recipientId));
      if friendship.None? {
        return Err(403, "Not friends");
      }
      assert records[friendship.value].requester != records[friendship.value].recipient;
      if FindRecord(records, PendingWatch(me, recipientId, projectId)).Some? {
        return Err(400, "Already sent");
      }
      var _ := Create(NewWatchRequest(0, me, recipientId, projectId, projectTitle));
      reply := Ok("Request sent");
    }

    /** `/remove/:friendId` (routes/friends.js:228-253): delete the first
        friend-type record between the two users, whatever its status. */
    method Remove(me: string, friendId: string) returns (reply: Reply<string>)
      requires Valid()
      modifies this`records
      ensures Valid()
      ensures FindRecord(old(records), FriendLink(me, friendId)).None? ==>
        reply == Err(404, "Friendship not found") && records == old(records)
      ensures FindRecord(old(records), FriendLink(me, friendId)).Some? ==>
        reply == Ok("Friend removed") && records == RemoveAt(old(records), FindRecord(old(records), FriendLink(me, friendId)).value)
    {
      var found := FindRecord(records, FriendLink(me, friendId));
      if found.None? {
        return Err(404, "Friendship not found");
      }
      records := RemoveAt(records, found.value);
      reply := Ok("Friend removed");
    }
  }
}
