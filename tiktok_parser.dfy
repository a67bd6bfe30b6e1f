/**
 * The user-search client: the response normaliser, which turns one decoded
 * search payload into flat user records, and the pagination loop, which
 * drives the search endpoint page by page. The HTTP call is an oracle
 * (`Server`); sleeps and fetches are recorded in a ghost trace.
 */
module TikTokParser {
  import opened PyRuntime
  import opened Pagination

  /** The keys of every emitted user record, in insertion order. */
  const UserKeys: seq<string> := [
    "uid", "nickname", "signature", "avatar_thumb", "follower_count",
    "custom_verify", "unique_id", "sec_uid", "follow_status", "platform_sync_info"
  ]

  /** A value coerced to a dict: `x if isinstance(x, dict) else {}`. */
  function AsDict(v: Json): Dict {
    if v.JMap? then v.entries else []
  }

  /** The user-info candidates of an entry, in priority order (`user_info or user or {}`). */
  function UserInfoCandidates(entry: Dict): seq<Json> {
    [Get(entry, "user_info"), Get(entry, "user"), JMap([])]
  }

  function UserInfo(entry: Dict): Dict {
    AsDict(FirstTruthy(UserInfoCandidates(entry)))
  }

  function Stats(entry: Dict): Dict {
    AsDict(FirstTruthy([Get(entry, "stats"), JMap([])]))
  }

  function UniqueIdCandidates(info: Dict): seq<Json> {
    [Get(info, "unique_id"), Get(info, "short_id")]
  }

  function AvatarCandidates(info: Dict): seq<Json> {
    [Get(info, "avatar_thumb"), Get(info, "avatarThumb"), JMap([])]
  }

  function FollowerCandidates(stats: Dict): seq<Json> {
    [Get(stats, "follower_count"), Get(stats, "followerCount"), Get(stats, "followerCountStr")]
  }

  function VerifyCandidates(info: Dict): seq<Json> {
    [Get(info, "custom_verify"), Get(info, "enterprise_verify_reason")]
  }

  /** At least one identifying field (uid, unique_id/short_id, sec_uid) is truthy. */
  predicate HasIdentity(info: Dict) {
    Truthy(Get(info, "uid")) || Truthy(Get(info, "unique_id")) || Truthy(Get(info, "short_id"))
    || Truthy(Get(info, "sec_uid"))
  }

  /** A user record from its ten field values, given in `UserKeys` order. */
  function UserRecord(values: seq<Json>): (d: Dict)
    requires |values| == |UserKeys|
    ensures Keys(d) == UserKeys
  {
    seq(|UserKeys|, i requires 0 <= i < |UserKeys| => (UserKeys[i], values[i]))
  }

  lemma UserKeysDistinct()
    ensures forall i, j :: 0 <= i < j < |UserKeys| ==> UserKeys[i] != UserKeys[j]
  {
  }

  /** Each key of a user record reads back the value it was built with. */
  lemma UserRecordField(values: seq<Json>, k: nat)
    requires |values| == |UserKeys| && k < |UserKeys|
    ensures Lookup(UserRecord(values), UserKeys[k]) == Some(values[k])
  {
    var d := UserRecord(values);
    assert Keys(d)[k] == UserKeys[k];
    var r := Lookup(d, UserKeys[k]);
    LookupSpec(d, UserKeys[k]);
    var i :| 0 <= i < |d| && d[i] == (UserKeys[k], r.value);
    UserKeysDistinct();
    assert UserKeys[i] == UserKeys[k];
    assert i == k;
  }

  /** `signature or ""`: the signature when it is truthy, the empty string otherwise. */
  function Signature(info: Dict): (r: Json)
    ensures r == if Truthy(Get(info, "signature")) then Get(info, "signature") else JStr("")
  {
    var cs := [Get(info, "signature"), JStr("")];
    if Truthy(cs[0]) then FirstTruthyWins(cs, 0); FirstTruthy(cs)
    else FirstTruthyWins(cs, 1); FirstTruthy(cs)
  }

  /** `avatar_thumb or avatarThumb or {}`: the first truthy spelling, else an empty dict. */
  function Avatar(info: Dict): (r: Json)
    ensures r == if Truthy(Get(info, "avatar_thumb")) then Get(info, "avatar_thumb")
                 else if Truthy(Get(info, "avatarThumb")) then Get(info, "avatarThumb")
                 else JMap([])
  {
    var cs := AvatarCandidates(info);
    if Truthy(cs[0]) then FirstTruthyWins(cs, 0); FirstTruthy(cs)
    else if Truthy(cs[1]) then FirstTruthyWins(cs, 1); FirstTruthy(cs)
    else FirstTruthyWins(cs, 2); FirstTruthy(cs)
  }

  /**
   * `unique_id or short_id`: the unique id when it is truthy, the short id
   * otherwise, so truthy exactly when one of the two is.
   */
  function UniqueId(info: Dict): (r: Json)
    ensures r == if Truthy(Get(info, "unique_id")) then Get(info, "unique_id") else Get(info, "short_id")
    ensures Truthy(r) <==> Truthy(Get(info, "unique_id")) || Truthy(Get(info, "short_id"))
  {
    var cs := UniqueIdCandidates(info);
    if Truthy(cs[0]) then FirstTruthyWins(cs, 0); FirstTruthy(cs)
    else FirstTruthyWins(cs, 1); FirstTruthy(cs)
  }

  /**
   * The ten field values of an entry's record, in `UserKeys` order, each
   * resolved first-truthy-wins over its candidate keys.
   */
  function UserFields(entry: Dict): (values: seq<Json>)
    ensures |values| == |UserKeys|
  {
    var info := UserInfo(entry);
    [
      Get(info, "uid"),
      Get(info, "nickname"),
      Signature(info),
      Avatar(info),
      FirstTruthy(FollowerCandidates(Stats(entry))),
      FirstTruthy(VerifyCandidates(info)),
      UniqueId(info),
      Get(info, "sec_uid"),
      Get(entry, "follow_status"),
      Get(entry, "platform_sync_info")
    ]
  }

  /** The drop rule's test on `uid`, `unique_id` and `sec_uid` is exactly `HasIdentity`. */
  lemma UserFieldsIdentity(entry: Dict)
    ensures var values := UserFields(entry);
            (Truthy(values[0]) || Truthy(values[6]) || Truthy(values[7])) <==> HasIdentity(UserInfo(entry))
  {
    var info := UserInfo(entry);
    var values := UserFields(entry);
    assert values[0] == Get(info, "uid") && values[6] == UniqueId(info) && values[7] == Get(info, "sec_uid");
  }

  /**
   * One `user_list` entry: skipped when it is not a dict, dropped when it has
   * no identity, otherwise a record of exactly the ten user keys.
   */
  function ParseEntry(entry: Json): (r: Option<Dict>)
    ensures r.Some? <==> entry.JMap? && HasIdentity(UserInfo(entry.entries))
    ensures r.Some? ==> Keys(r.value) == UserKeys && r.value == UserRecord(UserFields(entry.entries))
  {
    if !entry.JMap? then None
    else
      var values := UserFields(entry.entries);
      UserFieldsIdentity(entry.entries);
      if !Truthy(values[0]) && !Truthy(values[6]) && !Truthy(values[7]) then None
      else Some(UserRecord(values))
  }

  /**
   * An emitted record carries the resolved signature and avatar: its `signature`
   * is never None (default ""), its `avatar_thumb` never falsy but {}.
   */
  lemma RecordDefaults(entry: Dict)
    requires ParseEntry(JMap(entry)).Some?
    ensures var record := ParseEntry(JMap(entry)).value;
            var info := UserInfo(entry);
            && Get(record, "signature") == Signature(info)
            && Get(record, "avatar_thumb") == Avatar(info)
            && (Truthy(Get(record, "signature")) || Get(record, "signature") == JStr(""))
            && (Truthy(Get(record, "avatar_thumb")) || Get(record, "avatar_thumb") == JMap([]))
  {
    var values := UserFields(entry);
    UserRecordField(values, 2);
    UserRecordField(values, 3);
    assert values[2] == Signature(UserInfo(entry)) && values[3] == Avatar(UserInfo(entry));
  }

  /** The filter-map loop over `user_list`: records in the order of their entries. */
  function ParseEntries(entries: seq<Json>): (r: seq<Dict>)
    ensures |r| <= |entries|
    ensures forall k :: 0 <= k < |r| ==> Keys(r[k]) == UserKeys
  {
    if entries == [] then []
    else
      var rest := ParseEntries(entries[1..]);
      match ParseEntry(entries[0])
      case Some(record) => [record] + rest
      case None => rest
  }

  /** Parsing distributes over concatenation of entry lists: order is kept. */
  lemma {:induction false} ParseEntriesAppend(a: seq<Json>, b: seq<Json>)
    ensures ParseEntries(a + b) == ParseEntries(a) + ParseEntries(b)
  {
    if a == [] {
      assert a + b == b;
    } else {
      assert (a + b)[0] == a[0] && (a + b)[1..] == a[1..] + b;
      ParseEntriesAppend(a[1..], b);
    }
  }

  /** An entry is emitted, on its own, iff it is a dict with an identity. */
  lemma ParseEntriesSingle(entry: Json)
    ensures ParseEntries([entry]) == (if entry.JMap? && HasIdentity(UserInfo(entry.entries))
                                      then [ParseEntry(entry).value] else [])
  {
    assert [entry][1..] == [];
  }

  /**
   * The `user_list` the payload carries, read by plain key lookups: present
   * only when `data` is a dict whose `user_list` is a list.
   */
  function UserList(payload: Dict): Option<seq<Json>> {
    match Lookup(payload, "data")
    case Some(JMap(data)) =>
      (match Lookup(data, "user_list")
       case Some(JList(items)) => Some(items)
       case _ => None)
    case _ => None
  }

  /**
   * `_parse_users_from_response`. A payload that is not a dict has no `.get`
   * and raises; otherwise the records of `data.user_list`, or none.
   */
  function ParseUsers(payload: Json): (r: Result<seq<Dict>>)
    ensures r.Err? <==> !payload.JMap?
    ensures payload.JMap? && UserList(payload.entries).None? ==> r == Ok([])
    ensures payload.JMap? && UserList(payload.entries).Some? ==> r == Ok(ParseEntries(UserList(payload.entries).value))
  {
    if !payload.JMap? then Err(AttributeError("get"))
    else
      var first := Get(payload.entries, "data");
      var data := if Truthy(first) then first else GetOr(payload.entries, "data", JMap([]));
      var userList := if data.JMap? then GetOr(data.entries, "user_list", JList([])) else JList([]);
      if !userList.JList? then Ok([]) else Ok(ParseEntries(userList.items))
  }

  /**
   * `_parse_users_from_response` as the source runs it: after the lookups,
   * a loop that appends each entry's record, skipping the entries it drops.
   */
  method ParseUsersFromResponse(payload: Json) returns (r: Result<seq<Dict>>)
    ensures r == ParseUsers(payload)
  {
    if !payload.JMap? {
      return Err(AttributeError("get"));
    }
    var first := Get(payload.entries, "data");
    var data := if Truthy(first) then first else GetOr(payload.entries, "data", JMap([]));
    var userList := if data.JMap? then GetOr(data.entries, "user_list", JList([])) else JList([]);
    if !userList.JList? {
      return Ok([]);
    }
    var parsed := ParseUserList(userList.items);
    return Ok(parsed);
  }

  /** The `for entry in user_list` loop: append each kept entry's record, in order. */
  method ParseUserList(entries: seq<Json>) returns (parsed: seq<Dict>)
    ensures parsed == ParseEntries(entries)
  {
    parsed := [];
    for i := 0 to |entries|
      invariant parsed == ParseEntries(entries[..i])
    {
      ParseEntriesSnoc(entries, i);
      var record := ParseEntry(entries[i]);
      if record.Some? {
        parsed := parsed + [record.value];
      }
    }
    assert entries[..|entries|] == entries;
  }

  /** One more entry appends its record, or nothing when it is dropped. */
  lemma ParseEntriesSnoc(entries: seq<Json>, i: nat)
    requires i < |entries|
    ensures ParseEntries(entries[..i + 1])
            == ParseEntries(entries[..i]) + (if ParseEntry(entries[i]).Some? then [ParseEntry(entries[i]).value] else [])
  {
    ParseEntriesAppend(entries[..i], [entries[i]]);
    assert entries[..i + 1] == entries[..i] + [entries[i]];
    assert [entries[i]][1..] == [];
  }

  /** A dict without a "data" key, such as an emitted record, parses to no records. */
  lemma RenormalizeYieldsNothing(record: Dict)
    requires Keys(record) == UserKeys
    ensures ParseUsers(JMap(record)) == Ok([])
  {
    assert "data" !in UserKeys;
    LookupSpec(record, "data");
  }

  /** An entry whose winning user-info candidate is not a dict is dropped. */
  lemma NonDictUserInfoDropsEntry(entry: Dict)
    requires !FirstTruthy(UserInfoCandidates(entry)).JMap?
    ensures ParseEntry(JMap(entry)) == None
  {
    assert UserInfo(entry) == [];
  }

  /** The follower count is the first truthy of its three candidates, else the last. */
  lemma FollowerCountPriority(entry: Dict, k: nat)
    requires ParseEntry(JMap(entry)).Some?
    requires k < 3
    requires forall j :: 0 <= j < k ==> !Truthy(FollowerCandidates(Stats(entry))[j])
    requires Truthy(FollowerCandidates(Stats(entry))[k]) || k == 2
    ensures Get(ParseEntry(JMap(entry)).value, "follower_count") == FollowerCandidates(Stats(entry))[k]
  {
    FirstTruthyWins(FollowerCandidates(Stats(entry)), k);
    UserRecordField(UserFields(entry), 4);
  }

  /** The user-info dict is the first truthy of `user_info`, `user`. */
  lemma UserInfoPriority(entry: Dict)
    ensures Truthy(Get(entry, "user_info")) ==> UserInfo(entry) == AsDict(Get(entry, "user_info"))
    ensures !Truthy(Get(entry, "user_info")) && Truthy(Get(entry, "user"))
            ==> UserInfo(entry) == AsDict(Get(entry, "user"))
    ensures !Truthy(Get(entry, "user_info")) && !Truthy(Get(entry, "user")) ==> UserInfo(entry) == []
  {
    var cs := UserInfoCandidates(entry);
    if !Truthy(cs[0]) && Truthy(cs[1]) {
      FirstTruthyWins(cs, 1);
    }
    if !Truthy(cs[0]) && !Truthy(cs[1]) {
      FirstTruthyWins(cs, 2);
    }
  }

  /** The verification reason is `custom_verify`, or `enterprise_verify_reason` when that is falsy. */
  lemma VerifyPriority(entry: Dict)
    requires ParseEntry(JMap(entry)).Some?
    ensures var info := UserInfo(entry);
            Get(ParseEntry(JMap(entry)).value, "custom_verify")
            == if Truthy(Get(info, "custom_verify")) then Get(info, "custom_verify")
               else Get(info, "enterprise_verify_reason")
  {
    UserRecordField(UserFields(entry), 5);
    var cs := VerifyCandidates(UserInfo(entry));
    assert cs[1..] == [Get(UserInfo(entry), "enterprise_verify_reason")];
  }

  // ---------------------------------------------------------------------------
  // Pagination
  // ---------------------------------------------------------------------------

  /**
   * The search endpoint: given the number of calls made before, the cursor
   * and the page size, the decoded payload. `JNull` stands for the None the
   * fetch returns on a network error, a bad status or an undecodable body,
   * which is also what a body holding JSON `null` decodes to.
   */
  type Server = (nat, Json, int) -> Json

  /** The parameters of one fetch as they go out. */
  datatype Request = Request(cursor: Json, count: int)

  /** What the loop does, in order: fetches and the pauses between them. */
  datatype Event = Fetch(request: Request) | Sleep

  /** `cursor or 0`: None and falsy cursors go out as 0. */
  function WireCursor(cursor: Option<Json>): (c: Json)
    ensures cursor.Some? && Truthy(cursor.value) ==> c == cursor.value
    ensures !(cursor.Some? && Truthy(cursor.value)) ==> c == JInt(0)
  {
    match cursor
    case None => JInt(0)
    case Some(v) => FirstTruthy([v, JInt(0)])
  }

  /** `min(max_items, 30)`. */
  function PageSize(maxItems: int): (n: int)
    ensures n <= 30 && n <= maxItems && (n == 30 || n == maxItems)
  {
    if maxItems < 30 then maxItems else 30
  }

  /** At most `n` records from the front of a page: the inner loop with its limit check. */
  function Take(s: seq<Dict>, n: int): (r: seq<Dict>)
    ensures |r| == if n <= 0 then 0 else if |s| <= n then |s| else n
    ensures r == s[..|r|]
  {
    if n <= 0 then [] else if |s| <= n then s else s[..n]
  }

  /** The records one response contributes: none for a failed fetch or a payload that raised. */
  function PageRecords(payload: Json): seq<Dict> {
    match ParseUsers(payload)
    case Ok(users) => users
    case Err(_) => []
  }

  /** What happens after one page: stop with an outcome, or go on from a cursor. */
  datatype Step = Stop(outcome: Result<seq<Dict>>) | Continue(collected: seq<Dict>, cursor: Json)

  /** One iteration's body after the fetch, given its response. */
  function PageStep(payload: Json, maxItems: int, collected: seq<Dict>): (s: Step)
    requires |collected| < maxItems
    ensures s.Stop? && s.outcome.Ok? ==> s.outcome.value == Take(collected + PageRecords(payload), maxItems)
    ensures s.Stop? && s.outcome.Err? ==> !payload.JNull? && !payload.JMap?
    ensures s.Continue? ==> PageRecords(payload) != [] && s.collected == collected + PageRecords(payload)
                            && |s.collected| < maxItems
    ensures s.Continue? ==> HasMoreFlag(payload) && NextCursor(payload) == Some(s.cursor)
  {
    if payload.JNull? then Stop(Ok(collected))
    else
      match ParseUsers(payload)
      case Err(e) => Stop(Err(e))
      case Ok(users) =>
        if users == [] then Stop(Ok(collected))
        else
          var grown := collected + Take(users, maxItems - |collected|);
          var hasMore := HasMoreFlag(payload);
          var next := NextCursor(payload);
          if !ShouldContinue(|grown|, maxItems, hasMore) then Stop(Ok(grown))
          else if next.None? then Stop(Ok(grown))
          else Continue(grown, next.value)
  }

  /**
   * The loop stops, keeping what it has, on a failed fetch, an empty page, the
   * limit, a false "more pages" flag or a missing cursor; a payload that is
   * not a dict raises.
   */
  lemma StopConditions(payload: Json, maxItems: int, collected: seq<Dict>)
    requires |collected| < maxItems
    ensures payload.JNull? ==> PageStep(payload, maxItems, collected) == Stop(Ok(collected))
    ensures !payload.JNull? && !payload.JMap?
            ==> PageStep(payload, maxItems, collected) == Stop(Err(AttributeError("get")))
    ensures ParseUsers(payload) == Ok([])
            ==> PageStep(payload, maxItems, collected) == Stop(Ok(collected))
    ensures var grown := collected + Take(PageRecords(payload), maxItems - |collected|);
            PageRecords(payload) != []
            && (|grown| >= maxItems || !HasMoreFlag(payload) || NextCursor(payload).None?)
            ==> PageStep(payload, maxItems, collected) == Stop(Ok(grown))
  {
  }

  /**
   * The loop goes on exactly when none of those holds: a non-empty page that
   * leaves the collection below the limit, says there are more pages and names
   * a cursor continues from that cursor with the whole page appended.
   */
  lemma ContinueConditions(payload: Json, maxItems: int, collected: seq<Dict>)
    requires |collected| < maxItems
    ensures PageRecords(payload) != [] && |collected + PageRecords(payload)| < maxItems
            && HasMoreFlag(payload) && NextCursor(payload).Some?
            ==> PageStep(payload, maxItems, collected) == Continue(collected + PageRecords(payload), NextCursor(payload).value)
    ensures PageStep(payload, maxItems, collected).Continue?
            ==> PageRecords(payload) != [] && |collected + PageRecords(payload)| < maxItems
                && HasMoreFlag(payload) && NextCursor(payload).Some?
  {
  }

  /** The outcome of a search and the requests it sent, in order. */
  datatype Run = Run(outcome: Result<seq<Dict>>, requests: seq<Request>)

  /** The loop from a state where another fetch is due. */
  function Paginate(server: Server, maxItems: int, calls: nat, cursor: Option<Json>, collected: seq<Dict>): Run
    requires |collected| < maxItems
    decreases maxItems - |collected|
  {
    var request := Request(WireCursor(cursor), PageSize(maxItems));
    match PageStep(server(calls, request.cursor, request.count), maxItems, collected)
    case Stop(outcome) => Run(outcome, [request])
    case Continue(grown, next) =>
      var rest := Paginate(server, maxItems, calls + 1, Some(next), grown);
      Run(rest.outcome, [request] + rest.requests)
  }

  /** `search_users`, as a function of the server's answers. */
  function SearchRun(server: Server, maxItems: int): Run {
    if ShouldContinue(0, maxItems, true) then Paginate(server, maxItems, 0, Some(JInt(0)), [])
    else Run(Ok([]), [])
  }

  /** The trace of a run: one fetch per request, a sleep between consecutive ones. */
  function Interleave(requests: seq<Request>): seq<Event> {
    if requests == [] then []
    else if |requests| == 1 then [Fetch(requests[0])]
    else Interleave(requests[..|requests| - 1]) + [Sleep, Fetch(requests[|requests| - 1])]
  }

  /** Sleeps sit only between two fetches: never first, never last, never two in a row. */
  lemma {:induction false} InterleaveShape(requests: seq<Request>)
    ensures |Interleave(requests)| == if requests == [] then 0 else 2 * |requests| - 1
    ensures forall i :: 0 <= i < |Interleave(requests)| ==>
              (Interleave(requests)[i].Sleep? <==> i % 2 == 1)
    ensures forall i :: 0 <= i < |requests| ==> Interleave(requests)[2 * i] == Fetch(requests[i])
  {
    if |requests| > 1 {
      var front := requests[..|requests| - 1];
      InterleaveShape(front);
      var t := Interleave(requests);
      forall i | 0 <= i < |requests|
        ensures t[2 * i] == Fetch(requests[i])
      {
        if i < |requests| - 1 {
          assert front[i] == requests[i];
        }
      }
    }
  }

  /** All records delivered by the pages a run fetched, in order. */
  function Pages(server: Server, calls: nat, requests: seq<Request>): seq<Dict>
    decreases |requests|
  {
    if requests == [] then []
    else PageRecords(server(calls, requests[0].cursor, requests[0].count)) + Pages(server, calls + 1, requests[1..])
  }

  lemma TakeAfterGrow(collected: seq<Dict>, page: seq<Dict>, rest: seq<Dict>, maxItems: int)
    requires |collected| < maxItems
    requires |collected + page| < maxItems
    ensures Take(collected + page + rest, maxItems) == Take(collected + (page + rest), maxItems)
  {
    assert collected + page + rest == collected + (page + rest);
  }

  /**
   * What a run from a due fetch delivers: at most the limit, at least what it
   * started with, the pages' records in order cut at the limit, at most one
   * fetch per missing record, every fetch with the same page size, the first
   * with the cursor it was given.
   */
  lemma {:induction false} PaginateSpec(server: Server, maxItems: int, calls: nat, cursor: Option<Json>, collected: seq<Dict>)
    requires |collected| < maxItems
    ensures var run := Paginate(server, maxItems, calls, cursor, collected);
            && 1 <= |run.requests| <= maxItems - |collected|
            && run.requests[0].cursor == WireCursor(cursor)
            && (forall i :: 0 <= i < |run.requests| ==> run.requests[i].count == PageSize(maxItems))
            && (run.outcome.Ok? ==> run.outcome.value == Take(collected + Pages(server, calls, run.requests), maxItems))
    decreases maxItems - |collected|
  {
    var request := Request(WireCursor(cursor), PageSize(maxItems));
    var response := server(calls, request.cursor, request.count);
    var page := PageRecords(response);
    var run := Paginate(server, maxItems, calls, cursor, collected);
    match PageStep(response, maxItems, collected)
    case Stop(outcome) =>
      assert run.requests == [request];
      assert Pages(server, calls, run.requests) == page + Pages(server, calls + 1, []);
      assert page + [] == page;
    case Continue(grown, next) =>
      var rest := Paginate(server, maxItems, calls + 1, Some(next), grown);
      PaginateSpec(server, maxItems, calls + 1, Some(next), grown);
      assert run.requests == [request] + rest.requests;
      assert run.requests[0] == request && run.requests[1..] == rest.requests;
      var later := Pages(server, calls + 1, rest.requests);
      assert Pages(server, calls, run.requests) == page + later;
      if rest.outcome.Ok? {
        TakeAfterGrow(collected, page, later, maxItems);
      }
  }

  /**
   * `search_users` end to end: the fetched pages' records in order, cut at
   * `max_items`; no fetch at all when `max_items <= 0`, otherwise at most
   * `max_items` fetches, all with page size `min(max_items, 30)`, the first
   * with cursor 0.
   */
  lemma SearchRunSpec(server: Server, maxItems: int)
    ensures var run := SearchRun(server, maxItems);
            && (maxItems <= 0 ==> run == Run(Ok([]), []))
            && (maxItems > 0 ==> 1 <= |run.requests| <= maxItems && run.requests[0].cursor == JInt(0))
            && (forall i :: 0 <= i < |run.requests| ==> 1 <= run.requests[i].count <= 30 && run.requests[i].count == PageSize(maxItems))
            && (run.outcome.Ok? ==> run.outcome.value == Take(Pages(server, 0, run.requests), maxItems))
            && (run.outcome.Ok? ==> |run.outcome.value| <= maxItems || (maxItems <= 0 && run.outcome.value == []))
  {
    if maxItems > 0 {
      var run := SearchRun(server, maxItems);
      PaginateSpec(server, maxItems, 0, Some(JInt(0)), []);
      assert [] + Pages(server, 0, run.requests) == Pages(server, 0, run.requests);
    }
  }

  /**
   * The response to a request let the loop go on: a non-empty page saying
   * there are more pages and naming a cursor, which the next request carries.
   */
  predicate Continues(payload: Json, next: Request) {
    && PageRecords(payload) != []
    && HasMoreFlag(payload)
    && NextCursor(payload).Some?
    && next.cursor == WireCursor(NextCursor(payload))
  }

  /** Request number `k` drew a page that let the loop go on with the cursor `next` carries. */
  ghost predicate Link(server: Server, k: nat, request: Request, next: Request) {
    Continues(server(k, request.cursor, request.count), next)
  }

  ghost function LinkOf(server: Server): (nat, Request, Request) -> bool {
    (k: nat, request: Request, next: Request) => Link(server, k, request, next)
  }

  /** Consecutive requests, the first numbered `calls`, are related by `link`. */
  ghost predicate Chained(link: (nat, Request, Request) -> bool, calls: nat, requests: seq<Request>)
    decreases |requests|
  {
    |requests| <= 1 || (link(calls, requests[0], requests[1]) && Chained(link, calls + 1, requests[1..]))
  }

  /** The `i`-th link of a chain, for the request numbered `k == calls + i`. */
  lemma {:induction false} ChainedAt(link: (nat, Request, Request) -> bool, calls: nat, requests: seq<Request>, i: nat, k: nat)
    requires Chained(link, calls, requests)
    requires i + 1 < |requests| && k == calls + i
    ensures link(k, requests[i], requests[i + 1])
    decreases i
  {
    if i > 0 {
      ChainedAt(link, calls + 1, requests[1..], i - 1, k);
      assert requests[1..][i - 1] == requests[i] && requests[1..][i] == requests[i + 1];
    }
  }

  /** A run's first request carries the cursor of the state it starts from. */
  lemma PaginateFirst(server: Server, maxItems: int, calls: nat, cursor: Option<Json>, collected: seq<Dict>)
    requires |collected| < maxItems
    ensures Paginate(server, maxItems, calls, cursor, collected).requests[0] == Request(WireCursor(cursor), PageSize(maxItems))
  {
  }

  /** A page that continues the loop links its request to any request sent on the page's cursor. */
  lemma ContinueLink(server: Server, calls: nat, request: Request, next: Request, maxItems: int,
                     collected: seq<Dict>, grown: seq<Dict>, cursor: Json)
    requires |collected| < maxItems
    requires PageStep(server(calls, request.cursor, request.count), maxItems, collected) == Continue(grown, cursor)
    requires next.cursor == WireCursor(Some(cursor))
    ensures Link(server, calls, request, next)
  {
  }

  /** The requests of a run from any loop state form a chain. */
  lemma {:induction false} PaginateChained(server: Server, maxItems: int, calls: nat, cursor: Option<Json>, collected: seq<Dict>)
    requires |collected| < maxItems
    ensures Chained(LinkOf(server), calls, Paginate(server, maxItems, calls, cursor, collected).requests)
    decreases maxItems - |collected|
  {
    var request := Request(WireCursor(cursor), PageSize(maxItems));
    var step := PageStep(server(calls, request.cursor, request.count), maxItems, collected);
    if step.Continue? {
      var rest := Paginate(server, maxItems, calls + 1, Some(step.cursor), step.collected).requests;
      PaginateChained(server, maxItems, calls + 1, Some(step.cursor), step.collected);
      PaginateFirst(server, maxItems, calls + 1, Some(step.cursor), step.collected);
      ContinueLink(server, calls, request, rest[0], maxItems, collected, step.collected, step.cursor);
      var rs := [request] + rest;
      assert rs[1..] == rest && rs[1] == rest[0];
      assert LinkOf(server)(calls, request, rs[1]);
    }
  }

  /** Every fetch after the first follows a page that let the loop go on, with that page's cursor. */
  lemma CursorChain(server: Server, maxItems: int, i: nat)
    requires i + 1 < |SearchRun(server, maxItems).requests|
    ensures var rs := SearchRun(server, maxItems).requests;
            Continues(server(i, rs[i].cursor, rs[i].count), rs[i + 1])
  {
    PaginateChained(server, maxItems, 0, Some(JInt(0)), []);
    ChainedAt(LinkOf(server), 0, SearchRun(server, maxItems).requests, i, i);
  }

  /** Dropping the first element and the last one commute. */
  lemma ConsFront<T>(x: T, xs: seq<T>)
    requires xs != []
    ensures ([x] + xs)[..|xs|] == [x] + xs[..|xs| - 1]
    ensures ([x] + xs)[|xs|] == xs[|xs| - 1]
  {
  }

  /** The records of a run's pages: the first request's page, then the rest. */
  lemma PagesCons(server: Server, calls: nat, request: Request, requests: seq<Request>)
    ensures Pages(server, calls, [request] + requests)
            == PageRecords(server(calls, request.cursor, request.count)) + Pages(server, calls + 1, requests)
  {
    assert ([request] + requests)[1..] == requests;
  }

  /** The search stops after call `k`, of `request`, once `before` has been collected. */
  ghost predicate StopsAfter(server: Server, maxItems: int, k: nat, request: Request, before: seq<Dict>) {
    |before| < maxItems && PageStep(server(k, request.cursor, request.count), maxItems, before).Stop?
  }

  ghost function StopsOf(server: Server, maxItems: int): (nat, Request, seq<Dict>) -> bool {
    (k: nat, request: Request, before: seq<Dict>) => StopsAfter(server, maxItems, k, request, before)
  }

  /** Putting one more page in front of a run keeps its last request and what was collected before it. */
  lemma LastAfterCons(server: Server, stops: (nat, Request, seq<Dict>) -> bool, calls: nat, k: nat,
                      request: Request, rest: seq<Request>, collected: seq<Dict>, grown: seq<Dict>)
    requires rest != []
    requires grown == collected + PageRecords(server(calls, request.cursor, request.count))
    requires stops(k, rest[|rest| - 1], grown + Pages(server, calls + 1, rest[..|rest| - 1]))
    ensures var rs := [request] + rest;
            stops(k, rs[|rs| - 1], collected + Pages(server, calls, rs[..|rs| - 1]))
  {
    var rs := [request] + rest;
    var page := PageRecords(server(calls, request.cursor, request.count));
    var later := Pages(server, calls + 1, rest[..|rest| - 1]);
    ConsFront(request, rest);
    PagesCons(server, calls, request, rest[..|rest| - 1]);
    ConcatAssoc(collected, page, later);
  }

  /**
   * A run from a due fetch ends with a request, fetched as call `k`, whose
   * page stops the loop when it meets everything collected before it, which
   * is still below the limit.
   */
  lemma {:induction false} PaginateLast(server: Server, maxItems: int, calls: nat, cursor: Option<Json>,
                                        collected: seq<Dict>, k: nat)
    requires |collected| < maxItems
    requires k + 1 == calls + |Paginate(server, maxItems, calls, cursor, collected).requests|
    ensures var rs := Paginate(server, maxItems, calls, cursor, collected).requests;
            |rs| >= 1 && StopsOf(server, maxItems)(k, rs[|rs| - 1], collected + Pages(server, calls, rs[..|rs| - 1]))
    decreases maxItems - |collected|
  {
    var request := Request(WireCursor(cursor), PageSize(maxItems));
    var step := PageStep(server(calls, request.cursor, request.count), maxItems, collected);
    if step.Stop? {
      LastOfStop(server, maxItems, calls, cursor, collected);
    } else {
      PaginateFirst(server, maxItems, calls + 1, Some(step.cursor), step.collected);
      PaginateLast(server, maxItems, calls + 1, Some(step.cursor), step.collected, k);
      LastOfContinue(server, maxItems, calls, cursor, collected, step.collected, step.cursor, k);
    }
  }

  /** `PaginateLast` for a state whose page stops the loop: its one request is the last. */
  lemma LastOfStop(server: Server, maxItems: int, calls: nat, cursor: Option<Json>, collected: seq<Dict>)
    requires |collected| < maxItems
    requires PageStep(server(calls, WireCursor(cursor), PageSize(maxItems)), maxItems, collected).Stop?
    ensures var rs := Paginate(server, maxItems, calls, cursor, collected).requests;
            |rs| == 1 && StopsOf(server, maxItems)(calls, rs[|rs| - 1], collected + Pages(server, calls, rs[..|rs| - 1]))
  {
    var request := Request(WireCursor(cursor), PageSize(maxItems));
    assert Paginate(server, maxItems, calls, cursor, collected).requests == [request];
    assert collected + Pages(server, calls, []) == collected;
    assert StopsAfter(server, maxItems, calls, request, collected);
  }

  /** `PaginateLast` for a state whose page goes on: the last request is the next state's. */
  lemma LastOfContinue(server: Server, maxItems: int, calls: nat, cursor: Option<Json>, collected: seq<Dict>,
                       grown: seq<Dict>, next: Json, k: nat)
    requires |collected| < maxItems
    requires PageStep(server(calls, WireCursor(cursor), PageSize(maxItems)), maxItems, collected) == Continue(grown, next)
    requires var rest := Paginate(server, maxItems, calls + 1, Some(next), grown).requests;
             |rest| >= 1 && StopsOf(server, maxItems)(k, rest[|rest| - 1], grown + Pages(server, calls + 1, rest[..|rest| - 1]))
    ensures var rs := Paginate(server, maxItems, calls, cursor, collected).requests;
            |rs| >= 1 && StopsOf(server, maxItems)(k, rs[|rs| - 1], collected + Pages(server, calls, rs[..|rs| - 1]))
  {
    var request := Request(WireCursor(cursor), PageSize(maxItems));
    var rest := Paginate(server, maxItems, calls + 1, Some(next), grown).requests;
    PaginateCons(server, maxItems, calls, cursor, collected, grown, next);
    LastAfterCons(server, StopsOf(server, maxItems), calls, k, request, rest, collected, grown);
  }

  /** A state whose page goes on sends its request, then the next state's requests. */
  lemma PaginateCons(server: Server, maxItems: int, calls: nat, cursor: Option<Json>, collected: seq<Dict>,
                     grown: seq<Dict>, next: Json)
    requires |collected| < maxItems
    requires PageStep(server(calls, WireCursor(cursor), PageSize(maxItems)), maxItems, collected) == Continue(grown, next)
    ensures Paginate(server, maxItems, calls, cursor, collected).requests
            == [Request(WireCursor(cursor), PageSize(maxItems))] + Paginate(server, maxItems, calls + 1, Some(next), grown).requests
  {
  }

  /**
   * The converse of `CursorChain`: the search sends its last request only
   * when that page, after everything collected before it, stops the loop, so
   * it is not a non-empty page below the limit that says there are more pages
   * and names a cursor.
   */
  lemma LastPageStops(server: Server, maxItems: int)
    requires maxItems > 0
    ensures var rs := SearchRun(server, maxItems).requests;
            var before := Pages(server, 0, rs[..|rs| - 1]);
            var last := server(|rs| - 1, rs[|rs| - 1].cursor, rs[|rs| - 1].count);
            && |rs| >= 1
            && |before| < maxItems
            && PageStep(last, maxItems, before).Stop?
            && !(PageRecords(last) != [] && |before + PageRecords(last)| < maxItems
                 && HasMoreFlag(last) && NextCursor(last).Some?)
  {
    var rs := SearchRun(server, maxItems).requests;
    PaginateSpec(server, maxItems, 0, Some(JInt(0)), []);
    PaginateLast(server, maxItems, 0, Some(JInt(0)), [], |rs| - 1);
    var before := Pages(server, 0, rs[..|rs| - 1]);
    assert [] + before == before;
    assert StopsAfter(server, maxItems, |rs| - 1, rs[|rs| - 1], before);
    ContinueConditions(server(|rs| - 1, rs[|rs| - 1].cursor, rs[|rs| - 1].count), maxItems, before);
  }

  /**
   * Two pages, as in the payload shape `search_users` expects: a first page
   * below the limit that says there are more pages and names a cursor, then a
   * page that says there are none. The search fetches twice, pausing once in
   * between, the second time from the first page's cursor, and returns both
   * pages' records cut at the limit.
   */
  lemma TwoPageSearch(server: Server, maxItems: int)
    requires maxItems > 0
    requires var first := server(0, JInt(0), PageSize(maxItems));
             && PageRecords(first) != [] && |PageRecords(first)| < maxItems
             && HasMoreFlag(first) && NextCursor(first).Some?
    requires var first := server(0, JInt(0), PageSize(maxItems));
             var second := server(1, WireCursor(NextCursor(first)), PageSize(maxItems));
             ParseUsers(second).Ok? && !HasMoreFlag(second)
    ensures var first := server(0, JInt(0), PageSize(maxItems));
            var second := server(1, WireCursor(NextCursor(first)), PageSize(maxItems));
            var r0 := Request(JInt(0), PageSize(maxItems));
            var r1 := Request(WireCursor(NextCursor(first)), PageSize(maxItems));
            var run := SearchRun(server, maxItems);
            && run.requests == [r0, r1]
            && Interleave(run.requests) == [Fetch(r0), Sleep, Fetch(r1)]
            && run.outcome == Ok(Take(PageRecords(first) + PageRecords(second), maxItems))
  {
    var first := server(0, JInt(0), PageSize(maxItems));
    var next := NextCursor(first).value;
    var second := server(1, WireCursor(Some(next)), PageSize(maxItems));
    var r0 := Request(JInt(0), PageSize(maxItems));
    var r1 := Request(WireCursor(Some(next)), PageSize(maxItems));
    var outcome := Ok(Take(PageRecords(first) + PageRecords(second), maxItems));
    assert WireCursor(Some(JInt(0))) == JInt(0);
    FirstPageContinues(first, maxItems);
    LastPageHasNoMore(second, maxItems, PageRecords(first));
    TwoStepRun(server, maxItems, PageRecords(first), next, outcome);
    InterleaveTwo(r0, r1);
  }

  /** A first page that goes on, then one that stops: two requests, the second from the cursor. */
  lemma TwoStepRun(server: Server, maxItems: int, grown: seq<Dict>, next: Json, outcome: Result<seq<Dict>>)
    requires 0 < maxItems
    requires PageStep(server(0, JInt(0), PageSize(maxItems)), maxItems, []) == Continue(grown, next)
    requires PageStep(server(1, WireCursor(Some(next)), PageSize(maxItems)), maxItems, grown) == Stop(outcome)
    ensures SearchRun(server, maxItems)
            == Run(outcome, [Request(JInt(0), PageSize(maxItems))] + [Request(WireCursor(Some(next)), PageSize(maxItems))])
  {
    assert WireCursor(Some(JInt(0))) == JInt(0);
    PaginateContinue(server, maxItems, 0, Some(JInt(0)), [], grown, next, []);
    PaginateStop(server, maxItems, 1, Some(next), grown, outcome);
  }

  /** A first page below the limit that says there are more pages and names a cursor goes on. */
  lemma FirstPageContinues(payload: Json, maxItems: int)
    requires 0 < maxItems
    requires PageRecords(payload) != [] && |PageRecords(payload)| < maxItems
    requires HasMoreFlag(payload) && NextCursor(payload).Some?
    ensures PageStep(payload, maxItems, []) == Continue(PageRecords(payload), NextCursor(payload).value)
  {
    ContinueConditions(payload, maxItems, []);
    assert [] + PageRecords(payload) == PageRecords(payload);
  }

  /** A page that parses and says there are no more pages ends the search with what it adds. */
  lemma LastPageHasNoMore(payload: Json, maxItems: int, collected: seq<Dict>)
    requires |collected| < maxItems
    requires ParseUsers(payload).Ok? && !HasMoreFlag(payload)
    ensures PageStep(payload, maxItems, collected) == Stop(Ok(Take(collected + PageRecords(payload), maxItems)))
  {
  }

  lemma InterleaveTwo(r0: Request, r1: Request)
    ensures Interleave([r0] + [r1]) == [Fetch(r0), Sleep, Fetch(r1)]
  {
    assert ([r0] + [r1])[..1] == [r0];
  }

  /** One more request extends the trace by a pause and a fetch (just the fetch, for the first). */
  lemma InterleaveSnoc(requests: seq<Request>, request: Request)
    ensures (if requests == [] then [] else Interleave(requests) + [Sleep]) + [Fetch(request)]
            == Interleave(requests + [request])
  {
    assert (requests + [request])[..|requests|] == requests;
  }

  /** A loop state that runs on after its page: the run from here is that page's request, then the run from the next state. */
  lemma PaginateContinue(server: Server, maxItems: int, calls: nat, cursor: Option<Json>, collected: seq<Dict>,
                         grown: seq<Dict>, next: Json, before: seq<Request>)
    requires |collected| < maxItems
    requires PageStep(server(calls, WireCursor(cursor), PageSize(maxItems)), maxItems, collected) == Continue(grown, next)
    ensures var run := Paginate(server, maxItems, calls, cursor, collected);
            var rest := Paginate(server, maxItems, calls + 1, Some(next), grown);
            run.outcome == rest.outcome
            && before + run.requests == (before + [Request(WireCursor(cursor), PageSize(maxItems))]) + rest.requests
  {
    var rest := Paginate(server, maxItems, calls + 1, Some(next), grown);
    var request := Request(WireCursor(cursor), PageSize(maxItems));
    assert before + ([request] + rest.requests) == (before + [request]) + rest.requests;
  }

  /** A loop state whose page stops the loop: the run from here is that one request. */
  lemma PaginateStop(server: Server, maxItems: int, calls: nat, cursor: Option<Json>, collected: seq<Dict>,
                     outcome: Result<seq<Dict>>)
    requires |collected| < maxItems
    requires PageStep(server(calls, WireCursor(cursor), PageSize(maxItems)), maxItems, collected) == Stop(outcome)
    ensures Paginate(server, maxItems, calls, cursor, collected)
            == Run(outcome, [Request(WireCursor(cursor), PageSize(maxItems))])
  {
  }

  /** The inner loop of `search_users`: append a page's records one by one, stopping at the limit. */
  method AppendWithinLimit(collected: seq<Dict>, users: seq<Dict>, maxItems: int) returns (grown: seq<Dict>)
    ensures grown == collected + Take(users, maxItems - |collected|)
  {
    grown := collected;
    var j := 0;
    while j < |users|
      invariant 0 <= j <= |users|
      invariant |collected| < maxItems ==> j <= maxItems - |collected|
      invariant |collected| >= maxItems ==> j == 0
      invariant grown == collected + users[..j]
      decreases |users| - j
    {
      if |grown| >= maxItems {
        break;
      }
      grown := grown + [users[j]];
      j := j + 1;
    }
  }

  /**
   * The body of the `search_users` loop after the fetch: stop on a failed
   * fetch or an empty page, raise on a payload that is not a dict, append the
   * page up to the limit, then stop unless the limit is not reached, more
   * pages are signalled and a cursor is given.
   */
  method ProcessPage(payload: Json, maxItems: int, collected: seq<Dict>) returns (step: Step)
    requires |collected| < maxItems
    ensures step == PageStep(payload, maxItems, collected)
  {
    if payload.JNull? {
      return Stop(Ok(collected));
    }
    var parsed := ParseUsersFromResponse(payload);
    if parsed.Err? {
      return Stop(Err(parsed.error));
    }
    var users := parsed.value;
    if users == [] {
      return Stop(Ok(collected));
    }
    var grown := AppendWithinLimit(collected, users, maxItems);
    var hasMore := HasMoreFlag(payload);
    var cursor := NextCursor(payload);
    if !ShouldContinue(|grown|, maxItems, hasMore) {
      return Stop(Ok(grown));
    }
    if cursor.None? {
      return Stop(Ok(grown));
    }
    return Continue(grown, cursor.value);
  }

  /**
   * `search_users`: fetch pages, pausing between fetches, while the limit is
   * not reached and the last page let the loop go on. `trace` records the
   * fetches and pauses in the order they happen.
   */
  method SearchUsers(server: Server, maxItems: int) returns (outcome: Result<seq<Dict>>, ghost trace: seq<Event>)
    ensures outcome == SearchRun(server, maxItems).outcome
    ensures trace == Interleave(SearchRun(server, maxItems).requests)
  {
    var collected: seq<Dict> := [];
    var cursor: Option<Json> := Some(JInt(0));
    var hasMore := true;
    var pageSize := PageSize(maxItems);
    var calls: nat := 0;
    ghost var requests: seq<Request> := [];
    trace := [];
    // `has_more` is re-read from every page, but a page after which the loop
    // goes on has signalled more pages, so it is still true at each test.
    while ShouldContinue(|collected|, maxItems, hasMore)
      invariant hasMore
      invariant |requests| == calls
      invariant calls == 0 ==> collected == [] && cursor == Some(JInt(0)) && trace == []
      invariant calls > 0 ==> |collected| < maxItems && trace == Interleave(requests) + [Sleep]
      invariant |collected| < maxItems ==>
                  var run := Paginate(server, maxItems, calls, cursor, collected);
                  SearchRun(server, maxItems) == Run(run.outcome, requests + run.requests)
      decreases maxItems - |collected|
    {
      var request := Request(WireCursor(cursor), pageSize);
      var response := server(calls, request.cursor, request.count);
      InterleaveSnoc(requests, request);
      trace := trace + [Fetch(request)];
      var step := ProcessPage(response, maxItems, collected);
      match step {
        case Stop(result) =>
          PaginateStop(server, maxItems, calls, cursor, collected, result);
          requests := requests + [request];
          assert trace == Interleave(requests);
          return result, trace;
        case Continue(grown, next) =>
          PaginateContinue(server, maxItems, calls, cursor, collected, grown, next, requests);
          requests := requests + [request];
          assert trace == Interleave(requests);
          collected, cursor := grown, Some(next);
          calls := calls + 1;
          trace := trace + [Sleep];
      }
    }
    outcome := Ok(collected);
  }

  /** A transport failure on the first call: no records, one fetch, no sleep. */
  lemma FirstFetchFails(server: Server, maxItems: int)
    requires maxItems > 0
    requires server(0, JInt(0), PageSize(maxItems)) == JNull
    ensures SearchRun(server, maxItems) == Run(Ok([]), [Request(JInt(0), PageSize(maxItems))])
    ensures Interleave(SearchRun(server, maxItems).requests) == [Fetch(Request(JInt(0), PageSize(maxItems)))]
  {
  }
}
