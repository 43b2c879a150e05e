/** The body of the `/webhook` endpoint: an ordered chain of guards that turns
    one decoded payload into a record to insert, a decision to ignore it, or
    the exception the Python code raises on the way (which Flask answers with
    500). The three outcomes are `Ok(Insert(doc))`, `Ok(Ignore)` and `Err(e)`. */
module Normalizer {
  import opened Exceptions
  import opened Json
  import Branches

  datatype Kind = Push | PullRequest | Merge {
    /** The text stored in the record's `action` field. */
    function Name(): (name: string)
      ensures name in {"PUSH", "PULL_REQUEST", "MERGE"}
    {
      match this
      case Push => "PUSH"
      case PullRequest => "PULL_REQUEST"
      case Merge => "MERGE"
    }
  }

  /** The `action` text names the kind of event: no two kinds share it. */
  lemma KindNamesDistinct(a: Kind, b: Kind)
    ensures a.Name() == b.Name() <==> a == b
  {
  }

  /** The stored document: `request_id`, `author`, `action`, `from_branch`,
      `to_branch`, `timestamp`. Fields hold whatever JSON value the payload
      carried there; Python's None is `JNull`. */
  datatype Action = Action(
    requestId: Json,
    author: Json,
    kind: Kind,
    fromBranch: Json,
    toBranch: Json,
    timestamp: Json)

  datatype Decision = Insert(doc: Action) | Ignore

  /** The push document, its values evaluated in the order the dict literal
      lists them. */
  function PushRecord(data: Json): (r: Result<Action>)
    ensures r.Ok? ==> PushShape(data) && PushComplete(data.fields)
    ensures r.Ok? ==> r.value.kind == Push && r.value.fromBranch == JNull
    ensures r.Ok? ==> r.value.toBranch.JStr? && '/' !in r.value.toBranch.s
  {
    var after :- Get(data, "after");
    var pusher :- Index(data, "pusher");
    var name :- Index(pusher, "name");
    var ref :- Index(data, "ref");
    var branch :- if ref.JStr? then Ok(Branches.BranchName(ref.s)) else Err(AttributeError);
    var headCommit :- GetOr(data, "head_commit", JObj(map[]));
    var timestamp :- Get(headCommit, "timestamp");
    Branches.BranchNameIsLastSegment(ref.s);
    Ok(Action(after, name, Push, JNull, JStr(branch), timestamp))
  }

  /** The pull-request document; opened and merged pull requests differ only
      in the kind and in which time field is read. */
  function PullRequestRecord(pr: Json, kind: Kind, timeKey: string): (r: Result<Action>)
    ensures r.Ok? <==> PullRequestComplete(pr, timeKey)
    ensures r.Ok? ==> r.value.kind == kind && r.value.timestamp == pr.fields[timeKey]
  {
    var id :- Get(pr, "id");
    var user :- Index(pr, "user");
    var login :- Index(user, "login");
    var head :- Index(pr, "head");
    var fromBranch :- Index(head, "ref");
    var base :- Index(pr, "base");
    var toBranch :- Index(base, "ref");
    var timestamp :- Index(pr, timeKey);
    Ok(Action(JStr(PyStr(id)), login, kind, fromBranch, toBranch, timestamp))
  }

  /** A top-level dict with both push keys. */
  predicate PushShape(data: Json) {
    data.JObj? && "pusher" in data.fields && "ref" in data.fields
  }

  /** A dict that is not a push, carries `pull_request`, and whose `action`
      is the given text. */
  predicate PullRequestShape(data: Json, action: string) {
    && data.JObj?
    && !PushShape(data)
    && "pull_request" in data.fields
    && FieldOr(data.fields, "action", JNull) == JStr(action)
  }

  /** `data = request.json` followed by the three guarded branches. */
  function Webhook(data: Json): (r: Result<Decision>)
    ensures r.Ok? && r.value.Insert? ==> (r.value.doc.kind == Push <==> PushShape(data))
    ensures r.Ok? && r.value.Insert? && r.value.doc.kind == PullRequest ==> PullRequestShape(data, "opened")
    ensures r.Ok? && r.value.Insert? && r.value.doc.kind == Merge ==>
      && PullRequestShape(data, "closed")
      && data.fields["pull_request"].JObj?
      && Truthy(FieldOr(data.fields["pull_request"].fields, "merged", JNull))
    ensures r.Ok? && r.value.Insert? && r.value.doc.kind == Push ==> r.value.doc.fromBranch == JNull
  {
    var hasPusher :- Contains(data, "pusher");
    // `and` evaluates its right operand only when the left one holds
    var isPush :- if hasPusher then Contains(data, "ref") else Ok(false);
    if isPush then
      var doc :- PushRecord(data);
      Ok(Insert(doc))
    else
      var hasPullRequest :- Contains(data, "pull_request");
      if !hasPullRequest then Ok(Ignore)
      else
        var pr :- Index(data, "pull_request");
        var action :- Get(data, "action");
        if action == JStr("opened") then
          var doc :- PullRequestRecord(pr, PullRequest, "created_at");
          Ok(Insert(doc))
        // the second `data.get("action")` reads the same dict and yields the same value;
        // `and` skips `pr.get("merged")` unless the action is "closed"
        else if action != JStr("closed") then Ok(Ignore)
        else
          var merged :- Get(pr, "merged");
          if !Truthy(merged) then Ok(Ignore)
          else
            var doc :- PullRequestRecord(pr, Merge, "merged_at");
            Ok(Insert(doc))
  }

  /** The push test runs first: a dict with `pusher` and `ref` is never
      ignored and never becomes a pull-request record, even when it also
      carries `pull_request`. */
  lemma PushTakesPrecedence(data: Json)
    requires PushShape(data)
    ensures Webhook(data) != Ok(Ignore)
    ensures Webhook(data).Ok? ==> Webhook(data).value.Insert? && Webhook(data).value.doc.kind == Push
  {
  }

  /** The nested push fields the record needs: `pusher` is a dict with a
      `name`, `ref` is a string, and `head_commit`, when present, is a dict. */
  predicate PushComplete(f: map<string, Json>)
    requires "pusher" in f && "ref" in f
  {
    && f["pusher"].JObj?
    && "name" in f["pusher"].fields
    && f["ref"].JStr?
    && ("head_commit" in f ==> f["head_commit"].JObj?)
  }

  /** A push is recorded exactly when its nested fields are complete, and the
      record carries `after` as request id (None when absent), the pusher's
      name as author, no source branch, the last piece of the ref as target
      branch, and the head commit's timestamp (None when either is absent). */
  lemma PushRecorded(data: Json)
    requires PushShape(data)
    ensures Webhook(data).Ok? <==> PushComplete(data.fields)
    ensures PushComplete(data.fields) ==>
      var f := data.fields;
      Webhook(data) == Ok(Insert(Action(
        FieldOr(f, "after", JNull),
        f["pusher"].fields["name"],
        Push,
        JNull,
        JStr(Branches.BranchName(f["ref"].s)),
        if "head_commit" in f then FieldOr(f["head_commit"].fields, "timestamp", JNull) else JNull)))
  {
  }

  /** Which exception an incomplete push raises, in evaluation order. */
  lemma PushFaults(data: Json)
    requires PushShape(data)
    ensures var f := data.fields;
      !f["pusher"].JObj? ==> Webhook(data) == Err(TypeError)
    ensures var f := data.fields;
      f["pusher"].JObj? && "name" !in f["pusher"].fields ==> Webhook(data) == Err(KeyError("name"))
    ensures var f := data.fields;
      f["pusher"].JObj? && "name" in f["pusher"].fields && !f["ref"].JStr? ==>
        Webhook(data) == Err(AttributeError)
    ensures var f := data.fields;
      f["pusher"].JObj? && "name" in f["pusher"].fields && f["ref"].JStr?
      && "head_commit" in f && !f["head_commit"].JObj? ==>
        Webhook(data) == Err(AttributeError)
  {
  }

  /** The nested pull-request fields the record needs: `user.login`,
      `head.ref`, `base.ref` and the chosen time field. */
  predicate PullRequestComplete(pr: Json, timeKey: string) {
    && pr.JObj?
    && "user" in pr.fields && pr.fields["user"].JObj? && "login" in pr.fields["user"].fields
    && "head" in pr.fields && pr.fields["head"].JObj? && "ref" in pr.fields["head"].fields
    && "base" in pr.fields && pr.fields["base"].JObj? && "ref" in pr.fields["base"].fields
    && timeKey in pr.fields
  }

  /** The record a complete pull request yields. */
  function PullRequestAction(pr: Json, kind: Kind, timeKey: string): Action
    requires PullRequestComplete(pr, timeKey)
  {
    var f := pr.fields;
    Action(
      JStr(PyStr(FieldOr(f, "id", JNull))),
      f["user"].fields["login"],
      kind,
      f["head"].fields["ref"],
      f["base"].fields["ref"],
      f[timeKey])
  }

  /** An opened pull request is recorded exactly when its nested fields are
      complete; the record is a PULL_REQUEST from head to base, by the
      author's login, at `created_at`, with `str(id)` as request id. */
  lemma OpenedRecorded(data: Json)
    requires PullRequestShape(data, "opened")
    ensures var pr := data.fields["pull_request"];
      Webhook(data).Ok? <==> PullRequestComplete(pr, "created_at")
    ensures var pr := data.fields["pull_request"];
      PullRequestComplete(pr, "created_at") ==>
        Webhook(data) == Ok(Insert(PullRequestAction(pr, PullRequest, "created_at")))
  {
  }

  /** A closed pull request is recorded only when `merged` is truthy, and
      then as a MERGE stamped with `merged_at` rather than `created_at`; a
      closed, unmerged one is ignored; a closed payload whose `pull_request`
      is not a dict raises on `pr.get`. */
  lemma ClosedRecorded(data: Json)
    requires PullRequestShape(data, "closed")
    ensures var pr := data.fields["pull_request"];
      !pr.JObj? ==> Webhook(data) == Err(AttributeError)
    ensures var pr := data.fields["pull_request"];
      pr.JObj? && !Truthy(FieldOr(pr.fields, "merged", JNull)) ==> Webhook(data) == Ok(Ignore)
    ensures var pr := data.fields["pull_request"];
      pr.JObj? && Truthy(FieldOr(pr.fields, "merged", JNull)) ==>
        (Webhook(data).Ok? <==> PullRequestComplete(pr, "merged_at"))
    ensures var pr := data.fields["pull_request"];
      pr.JObj? && Truthy(FieldOr(pr.fields, "merged", JNull)) && PullRequestComplete(pr, "merged_at") ==>
        Webhook(data) == Ok(Insert(PullRequestAction(pr, Merge, "merged_at")))
  {
  }

  /** A pull request without a `user` is not skipped: `pr["user"]` raises
      KeyError before anything is stored. */
  lemma MissingUserFaults(data: Json)
    requires PullRequestShape(data, "opened") || PullRequestShape(data, "closed")
    requires data.fields["pull_request"].JObj?
    requires "user" !in data.fields["pull_request"].fields
    requires PullRequestShape(data, "closed") ==> Truthy(FieldOr(data.fields["pull_request"].fields, "merged", JNull))
    ensures Webhook(data) == Err(KeyError("user"))
  {
  }

  /** Which exception an incomplete opened (or closed and merged) pull
      request raises, in the evaluation order of the dict literal: a
      missing key raises KeyError naming it, and a nested value that is not
      a dict raises TypeError when indexed by a str. */
  lemma PullRequestFaults(data: Json, timeKey: string)
    requires || (PullRequestShape(data, "opened") && timeKey == "created_at")
             || (PullRequestShape(data, "closed") && timeKey == "merged_at")
    requires data.fields["pull_request"].JObj?
    requires PullRequestShape(data, "closed") ==> Truthy(FieldOr(data.fields["pull_request"].fields, "merged", JNull))
    requires "user" in data.fields["pull_request"].fields
    ensures var p := data.fields["pull_request"].fields;
      !p["user"].JObj? ==> Webhook(data) == Err(TypeError)
    ensures var p := data.fields["pull_request"].fields;
      p["user"].JObj? && "login" !in p["user"].fields ==> Webhook(data) == Err(KeyError("login"))
    ensures var p := data.fields["pull_request"].fields;
      p["user"].JObj? && "login" in p["user"].fields && "head" !in p ==>
        Webhook(data) == Err(KeyError("head"))
    ensures var p := data.fields["pull_request"].fields;
      p["user"].JObj? && "login" in p["user"].fields && "head" in p && !p["head"].JObj? ==>
        Webhook(data) == Err(TypeError)
    ensures var p := data.fields["pull_request"].fields;
      p["user"].JObj? && "login" in p["user"].fields && "head" in p && p["head"].JObj?
      && "ref" !in p["head"].fields ==>
        Webhook(data) == Err(KeyError("ref"))
    ensures var p := data.fields["pull_request"].fields;
      p["user"].JObj? && "login" in p["user"].fields && "head" in p && p["head"].JObj?
      && "ref" in p["head"].fields && "base" !in p ==>
        Webhook(data) == Err(KeyError("base"))
    ensures var p := data.fields["pull_request"].fields;
      p["user"].JObj? && "login" in p["user"].fields && "head" in p && p["head"].JObj?
      && "ref" in p["head"].fields && "base" in p && !p["base"].JObj? ==>
        Webhook(data) == Err(TypeError)
    ensures var p := data.fields["pull_request"].fields;
      p["user"].JObj? && "login" in p["user"].fields && "head" in p && p["head"].JObj?
      && "ref" in p["head"].fields && "base" in p && p["base"].JObj?
      && "ref" in p["base"].fields && timeKey !in p ==>
        Webhook(data) == Err(KeyError(timeKey))
  {
  }

  /** The payloads that are acknowledged as ignored, described by shape. */
  predicate IgnoredShape(data: Json) {
    match data
    case JObj(f) =>
      && !PushShape(data)
      && ("pull_request" in f ==>
            var action := FieldOr(f, "action", JNull);
            && action != JStr("opened")
            && (action == JStr("closed") ==>
                  f["pull_request"].JObj? && !Truthy(FieldOr(f["pull_request"].fields, "merged", JNull))))
    case JArr(items) =>
      !(JStr("pusher") in items && JStr("ref") in items) && JStr("pull_request") !in items
    case JStr(s) =>
      !(Substring("pusher", s) && Substring("ref", s)) && !Substring("pull_request", s)
    case _ => false
  }

  /** Exactly the payloads of `IgnoredShape` get the "ignored" answer; every
      other payload is either recorded or raises. */
  lemma IgnoredExactly(data: Json)
    ensures Webhook(data) == Ok(Ignore) <==> IgnoredShape(data)
  {
  }

  /** A body that is None, a boolean or a number cannot be searched with
      `in`, so the very first test raises. */
  lemma ScalarPayloadFaults(data: Json)
    requires data.JNull? || data.JBool? || data.JNum?
    ensures Webhook(data) == Err(TypeError)
  {
  }

  /** A complete push to `refs/heads/main` is recorded as a PUSH to `main`
      with no source branch. */
  lemma PushToMain(data: Json)
    requires PushShape(data) && PushComplete(data.fields)
    requires data.fields["ref"] == JStr("refs/heads/main")
    ensures Webhook(data).Ok? && Webhook(data).value.Insert?
    ensures Webhook(data).value.doc.kind == Push
    ensures Webhook(data).value.doc.toBranch == JStr("main")
    ensures Webhook(data).value.doc.fromBranch == JNull
  {
    PushRecorded(data);
    Branches.BranchNameExamples();
  }
}
