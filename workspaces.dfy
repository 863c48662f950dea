/** The workspace mirror of the `useWorkspaces` hook: an in-memory list of the
    signed-in user's workspace records that copies the remote `workspaces`
    table and is changed only after the store confirms a change. */
module Workspaces {
  import opened Js

  /** A workspace record as the UI holds it. `lastUsed` is absent until the
      workspace is first opened; `userId` is optional in the record type. */
  datatype Workspace = Workspace(
    id: string,
    name: string,
    modelId: string,
    modelName: string,
    createdAt: string,
    lastUsed: Option<string>,
    userId: Option<string>)

  /** A row of the remote `workspaces` table. The fields keep the table's own
      column names, so that the mapping to `Workspace` is visible. */
  datatype Row = Row(
    id: string,
    name: string,
    model_id: string,
    model_name: string,
    created_at: string,
    last_used: Option<string>,
    user_id: string)

  /** The columns `createWorkspace` inserts; the store assigns the rest. */
  datatype NewRow = NewRow(user_id: string, name: string, model_id: string, model_name: string, created_at: string)

  /** The authenticated user as the identity provider reports it. */
  datatype User = User(id: string)

  /** The outcome of `supabase.auth.getUser()`. */
  datatype AuthReply = SignedIn(user: User) | SignedOut | AuthThrew(thrown: Thrown)

  /** The outcome of one store call: its data, an `error` it reported (whose
      message may be empty), or an exception. */
  datatype StoreReply<T> = Confirmed(data: T) | Refused(message: string) | Threw(thrown: Thrown)

  /** The store call an operation issued. */
  datatype RemoteCall =
    | SelectOwnedBy(userId: string)
    | Insert(row: NewRow)
    | SetLastUsed(id: string, lastUsed: string)
    | DeleteById(id: string)

  const NotAuthenticatedText: string := "User not authenticated"
  const UnknownErrorText: string := "Unknown error"
  const LoadFailedText: string := "Failed to load workspaces"
  const CreateFailedText: string := "Unknown error creating workspace"
  const UpdateFailedText: string := "Failed to update last used"
  const DeleteFailedText: string := "Failed to delete workspace"

  /** The record built from a loaded row: every column is copied into its
      camelCase field, `last_used` included. */
  function FromLoadedRow(r: Row): (w: Workspace)
    ensures w.id == r.id && w.name == r.name && w.modelId == r.model_id
      && w.modelName == r.model_name && w.createdAt == r.created_at
    ensures w.lastUsed == r.last_used && w.userId == Some(r.user_id)
  {
    Workspace(r.id, r.name, r.model_id, r.model_name, r.created_at, r.last_used, Some(r.user_id))
  }

  /** The record built from the row an insert returned: the same copy, except
      that it carries no `lastUsed`, whatever the row holds. */
  function FromCreatedRow(r: Row): (w: Workspace)
    ensures w.id == r.id && w.name == r.name && w.modelId == r.model_id
      && w.modelName == r.model_name && w.createdAt == r.created_at
    ensures w.lastUsed.None? && w.userId == Some(r.user_id)
  {
    Workspace(r.id, r.name, r.model_id, r.model_name, r.created_at, None, Some(r.user_id))
  }

  /** The insert `createWorkspace` sends for user `u`: the user's id as owner,
      the arguments as given and the clock value as `created_at`. */
  function InsertFor(u: User, name: string, modelId: string, modelName: string, now: string): (n: NewRow)
    ensures n.user_id == u.id && n.name == name && n.model_id == modelId
      && n.model_name == modelName && n.created_at == now
  {
    NewRow(u.id, name, modelId, modelName, now)
  }

  /** The row a store returns for an inserted one when it keeps every column
      it was given, assigns `id` and leaves `last_used` null. */
  function StoredAs(n: NewRow, id: string): Row {
    Row(id, n.name, n.model_id, n.model_name, n.created_at, None, n.user_id)
  }

  /** `(data || []).map(...)`: one record per row, in the order the store returned. */
  function FromRows(rows: seq<Row>): (ws: seq<Workspace>)
    ensures |ws| == |rows|
    ensures forall i :: 0 <= i < |rows| ==> ws[i] == FromLoadedRow(rows[i])
  {
    if rows == [] then [] else [FromLoadedRow(rows[0])] + FromRows(rows[1..])
  }

  /** The ids of the mirror's entries, in order. */
  function Ids(ws: seq<Workspace>): (ids: seq<string>)
    ensures |ids| == |ws|
    ensures forall i :: 0 <= i < |ws| ==> ids[i] == ws[i].id
  {
    if ws == [] then [] else [ws[0].id] + Ids(ws[1..])
  }

  /** The store keeps ids unique; the mirror keeps that up when fed unique ids. */
  predicate UniqueIds(ws: seq<Workspace>) {
    forall i, j :: 0 <= i < j < |ws| ==> ws[i].id != ws[j].id
  }

  /** One entry of the `workspaces.map(...)` in `updateLastUsed`. */
  function TouchOne(w: Workspace, id: string, now: string): Workspace {
    if w.id == id then w.(lastUsed := Some(now)) else w
  }

  /** `workspaces.map(ws => ws.id === workspaceId ? { ...ws, lastUsed: now } : ws)`:
      same length and order; only `lastUsed` changes, and only on the entries
      whose id matches, where it becomes `now`. */
  function Touch(ws: seq<Workspace>, id: string, now: string): (r: seq<Workspace>)
    ensures |r| == |ws|
    ensures forall i :: 0 <= i < |ws| ==> r[i] == ws[i].(lastUsed := r[i].lastUsed)
    ensures forall i :: 0 <= i < |ws| ==>
      r[i].lastUsed == (if ws[i].id == id then Some(now) else ws[i].lastUsed)
  {
    if ws == [] then [] else [TouchOne(ws[0], id, now)] + Touch(ws[1..], id, now)
  }

  /** `workspaces.filter(ws => ws.id !== workspaceId)`: exactly the entries
      whose id differs, and no id-matching entry survives. */
  function Remove(ws: seq<Workspace>, id: string): (r: seq<Workspace>)
    ensures |r| <= |ws|
    ensures forall i :: 0 <= i < |r| ==> r[i].id != id
  {
    if ws == [] then []
    else (if ws[0].id == id then [] else [ws[0]]) + Remove(ws[1..], id)
  }

  /** An entry survives a delete exactly when it was there and its id differs. */
  lemma {:induction false} RemoveMembers(ws: seq<Workspace>, id: string, w: Workspace)
    ensures w in Remove(ws, id) <==> w in ws && w.id != id
  {
    if ws != [] {
      RemoveMembers(ws[1..], id, w);
      assert w in ws <==> w == ws[0] || w in ws[1..];
    }
  }

  /** Removing keeps the original order: it distributes over concatenation. */
  lemma {:induction false} RemoveConcat(a: seq<Workspace>, b: seq<Workspace>, id: string)
    ensures Remove(a + b, id) == Remove(a, id) + Remove(b, id)
  {
    if a == [] {
      assert a + b == b;
    } else {
      var head := if a[0].id == id then [] else [a[0]];
      assert (a + b)[0] == a[0] && (a + b)[1..] == a[1..] + b;
      calc {
        Remove(a + b, id);
        head + Remove(a[1..] + b, id);
        { RemoveConcat(a[1..], b, id); }
        head + (Remove(a[1..], id) + Remove(b, id));
        (head + Remove(a[1..], id)) + Remove(b, id);
        Remove(a, id) + Remove(b, id);
      }
    }
  }

  /** Deleting an id the mirror does not hold leaves it unchanged. */
  lemma {:induction false} RemoveAbsent(ws: seq<Workspace>, id: string)
    requires id !in Ids(ws)
    ensures Remove(ws, id) == ws
  {
    if ws != [] {
      assert Ids(ws[1..]) == Ids(ws)[1..];
      RemoveAbsent(ws[1..], id);
    }
  }

  /** Deleting twice is deleting once. */
  lemma RemoveIdempotent(ws: seq<Workspace>, id: string)
    ensures Remove(Remove(ws, id), id) == Remove(ws, id)
  {
    RemoveAbsent(Remove(ws, id), id);
  }

  /** With unique ids, deleting a present id shortens the mirror by exactly one. */
  lemma {:induction false} RemoveUniquePresent(ws: seq<Workspace>, id: string)
    requires UniqueIds(ws) && id in Ids(ws)
    ensures |Remove(ws, id)| == |ws| - 1
  {
    assert Ids(ws[1..]) == Ids(ws)[1..];
    if ws[0].id == id {
      assert id !in Ids(ws[1..]);
      RemoveAbsent(ws[1..], id);
    } else {
      RemoveUniquePresent(ws[1..], id);
    }
  }

  /** Deleting keeps ids unique. */
  lemma {:induction false} RemoveKeepsUnique(ws: seq<Workspace>, id: string)
    requires UniqueIds(ws)
    ensures UniqueIds(Remove(ws, id))
  {
    if ws != [] {
      RemoveKeepsUnique(ws[1..], id);
      var tail := Remove(ws[1..], id);
      if ws[0].id != id {
        forall j | 0 <= j < |tail|
          ensures tail[j].id != ws[0].id
        {
          RemoveMembers(ws[1..], id, tail[j]);
        }
      }
    }
  }

  /** Touching does not change the ids or their order, so it keeps them unique. */
  lemma TouchKeepsIds(ws: seq<Workspace>, id: string, now: string)
    ensures Ids(Touch(ws, id, now)) == Ids(ws)
    ensures UniqueIds(ws) ==> UniqueIds(Touch(ws, id, now))
  {
  }

  /** Touching twice is touching once with the later clock value. */
  lemma TouchTwice(ws: seq<Workspace>, id: string, t1: string, t2: string)
    ensures Touch(Touch(ws, id, t1), id, t2) == Touch(ws, id, t2)
  {
  }

  /** Touching an id the mirror does not hold leaves it unchanged. */
  lemma TouchAbsent(ws: seq<Workspace>, id: string, now: string)
    requires id !in Ids(ws)
    ensures Touch(ws, id, now) == ws
  {
    assert forall i :: 0 <= i < |ws| ==> ws[i].id != id;
  }

  /** A touched workspace that is then deleted leaves no trace. */
  lemma {:induction false} RemoveAfterTouch(ws: seq<Workspace>, id: string, now: string)
    ensures Remove(Touch(ws, id, now), id) == Remove(ws, id)
  {
    if ws != [] {
      var t := Touch(ws, id, now);
      assert t[1..] == Touch(ws[1..], id, now);
      RemoveAfterTouch(ws[1..], id, now);
    }
  }

  /** Prepending a workspace whose id is new keeps ids unique. */
  lemma PrependKeepsUnique(w: Workspace, ws: seq<Workspace>)
    requires UniqueIds(ws) && w.id !in Ids(ws)
    ensures UniqueIds([w] + ws)
  {
    assert forall j :: 0 <= j < |ws| ==> Ids(ws)[j] == ws[j].id;
  }

  /** The two row mappings differ only in `lastUsed`, and agree on a row that
      has never been opened. */
  lemma CreatedAndLoadedAgree(r: Row)
    ensures FromCreatedRow(r) == FromLoadedRow(r).(lastUsed := None)
    ensures r.last_used.None? ==> FromCreatedRow(r) == FromLoadedRow(r)
  {
  }

  /** When the store keeps the columns of an insert, the created record
      carries exactly the name, models, timestamp and owner that were asked for. */
  lemma CreateEchoesRequest(u: User, name: string, modelId: string, modelName: string, now: string, id: string)
    ensures FromCreatedRow(StoredAs(InsertFor(u, name, modelId, modelName, now), id))
      == Workspace(id, name, modelId, modelName, now, None, Some(u.id))
  {
  }

  /** The state the hook keeps: the mirror, the last error and whether the
      initial load has finished. */
  class WorkspaceMirror {
    var workspaces: seq<Workspace>
    var isLoaded: bool
    var error: Option<string>

    /** `useState([])`, `useState(false)`, `useState(null)`. */
    constructor ()
      ensures workspaces == [] && !isLoaded && error == None
    {
      workspaces := [];
      isLoaded := false;
      error := None;
    }

    /** `loadWorkspaces`, run once on mount. */
    method Load(auth: AuthReply, reply: StoreReply<Option<seq<Row>>>) returns (call: Option<RemoteCall>)
      modifies this
      ensures isLoaded
      ensures call == (if auth.SignedIn? then Some(SelectOwnedBy(auth.user.id)) else None)
      ensures auth.SignedOut? ==> workspaces == old(workspaces) && error == old(error)
      ensures auth.AuthThrew? ==>
        workspaces == old(workspaces) && error == Some(CaughtText(auth.thrown, UnknownErrorText))
      ensures auth.SignedIn? && reply.Confirmed? ==>
        workspaces == FromRows(Coalesce(reply.data, [])) && error == old(error)
      ensures auth.SignedIn? && reply.Refused? ==>
        workspaces == old(workspaces) && error == Some(OrElse(reply.message, LoadFailedText))
      ensures auth.SignedIn? && reply.Threw? ==>
        workspaces == old(workspaces) && error == Some(CaughtText(reply.thrown, UnknownErrorText))
    {
      call := None;
      match auth {
        case AuthThrew(err) =>
          error := Some(CaughtText(err, UnknownErrorText));
        case SignedOut =>
        case SignedIn(user) =>
          call := Some(SelectOwnedBy(user.id));
          match reply {
            case Threw(err) =>
              error := Some(CaughtText(err, UnknownErrorText));
            case Refused(message) =>
              error := Some(OrElse(message, LoadFailedText));
            case Confirmed(data) =>
              workspaces := FromRows(Coalesce(data, []));
          }
      }
      isLoaded := true;
    }

    /** `createWorkspace(name, modelId, modelName)`; `now` is the clock value
        written into `created_at`. */
    method CreateWorkspace(name: string, modelId: string, modelName: string, now: string,
                           auth: AuthReply, reply: StoreReply<Row>)
      returns (created: Option<Workspace>, call: Option<RemoteCall>)
      modifies this
      ensures isLoaded == old(isLoaded)
      // no insert is issued without a user
      ensures call == (if auth.SignedIn? then Some(Insert(InsertFor(auth.user, name, modelId, modelName, now))) else None)
      ensures created.Some? <==> auth.SignedIn? && reply.Confirmed?
      // success: the server's row, mapped, goes in front of the old entries
      ensures created.Some? ==>
        created.value == FromCreatedRow(reply.data)
        && workspaces == [created.value] + old(workspaces)
        && error == old(error)
      // failure: the mirror is left alone and the error is set
      ensures created.None? ==> workspaces == old(workspaces)
      ensures auth.SignedOut? ==> error == Some(NotAuthenticatedText)
      ensures auth.AuthThrew? ==> error == Some(CaughtText(auth.thrown, UnknownErrorText))
      ensures auth.SignedIn? && reply.Refused? ==> error == Some(OrElse(reply.message, CreateFailedText))
      ensures auth.SignedIn? && reply.Threw? ==> error == Some(CaughtText(reply.thrown, UnknownErrorText))
    {
      created, call := None, None;
      match auth {
        case AuthThrew(err) =>
          error := Some(CaughtText(err, UnknownErrorText));
        case SignedOut =>
          error := Some(NotAuthenticatedText);
        case SignedIn(user) =>
          call := Some(Insert(InsertFor(user, name, modelId, modelName, now)));
          match reply {
            case Threw(err) =>
              error := Some(CaughtText(err, UnknownErrorText));
            case Refused(message) =>
              error := Some(OrElse(message, CreateFailedText));
            case Confirmed(data) =>
              var workspace := FromCreatedRow(data);
              workspaces := [workspace] + workspaces;
              created := Some(workspace);
          }
      }
    }

    /** `updateLastUsed(workspaceId)`. The remote update and the mirror update
        read the clock separately: `remoteNow` and `localNow`. No user is checked. */
    method UpdateLastUsed(workspaceId: string, remoteNow: string, localNow: string, reply: StoreReply<()>)
      returns (call: RemoteCall)
      modifies this
      ensures isLoaded == old(isLoaded)
      ensures call == SetLastUsed(workspaceId, remoteNow)
      ensures reply.Confirmed? ==> workspaces == Touch(old(workspaces), workspaceId, localNow) && error == old(error)
      ensures !reply.Confirmed? ==> workspaces == old(workspaces)
      ensures reply.Refused? ==> error == Some(OrElse(reply.message, UpdateFailedText))
      ensures reply.Threw? ==> error == Some(CaughtText(reply.thrown, UnknownErrorText))
    {
      call := SetLastUsed(workspaceId, remoteNow);
      match reply {
        case Threw(err) =>
          error := Some(CaughtText(err, UnknownErrorText));
        case Refused(message) =>
          error := Some(OrElse(message, UpdateFailedText));
        case Confirmed(_) =>
          workspaces := Touch(workspaces, workspaceId, localNow);
      }
    }

    /** `deleteWorkspace(workspaceId)`. No user is checked. */
    method DeleteWorkspace(workspaceId: string, reply: StoreReply<()>) returns (call: RemoteCall)
      modifies this
      ensures isLoaded == old(isLoaded)
      ensures call == DeleteById(workspaceId)
      ensures reply.Confirmed? ==> workspaces == Remove(old(workspaces), workspaceId) && error == old(error)
      ensures !reply.Confirmed? ==> workspaces == old(workspaces)
      ensures reply.Refused? ==> error == Some(OrElse(reply.message, DeleteFailedText))
      ensures reply.Threw? ==> error == Some(CaughtText(reply.thrown, UnknownErrorText))
    {
      call := DeleteById(workspaceId);
      match reply {
        case Threw(err) =>
          error := Some(CaughtText(err, UnknownErrorText));
        case Refused(message) =>
          error := Some(OrElse(message, DeleteFailedText));
        case Confirmed(_) =>
          workspaces := Remove(workspaces, workspaceId);
      }
    }
  }

  /** Mounting the hook: a fresh mirror, then the initial load. Without a user
      the mirror stays empty; in every branch the load is marked finished. */
  method Mount(auth: AuthReply, reply: StoreReply<Option<seq<Row>>>) returns (m: WorkspaceMirror, call: Option<RemoteCall>)
    ensures fresh(m) && m.isLoaded
    ensures !(auth.SignedIn? && reply.Confirmed?) ==> m.workspaces == []
    ensures auth.SignedIn? && reply.Confirmed? ==> m.workspaces == FromRows(Coalesce(reply.data, []))
    ensures auth.SignedOut? ==> m.error == None && call == None
  {
    m := new WorkspaceMirror();
    call := m.Load(auth, reply);
  }
}
