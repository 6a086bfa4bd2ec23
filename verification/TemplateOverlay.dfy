/** Templates: the managed ones that the store keeps, and the list that lays them over the runtime's
    (internal/gateway/management_store.go, internal/gateway/gateway_callbacks.go). */
module TemplateOverlay {
  import opened Strings
  import opened Sorting

  type Log = seq<string>

  /** Creation time 0 stands for none. */
  datatype Template = Template(id: string, buildId: string, status: string, createdAt: nat)

  datatype Build = Build(template: Template, logs: Log)

  datatype Managed = Managed(template: Template, logs: Log, builds: map<string, Build>)

  datatype Store = Store(templates: map<string, Managed>, deleted: set<string>)

  const EMPTY := Store(map[], {})

  // ---------------------------------------------------------------- the store's operations

  function Before(s: Store, id: string): Managed {
    if id in s.templates then s.templates[id] else Managed(Template("", "", "", 0), [], map[])
  }

  /** What an upsert makes of the managed template before it. Without logs of its own it keeps the last ones; a template
      without a creation time takes that of its build. */
  function Upserted(before: Managed, t: Template, logs: Log): Managed {
    var kept := if logs == [] then before.logs else logs;
    if TrimSpace(t.buildId) == "" then Managed(t, kept, before.builds)
    else
      var old_ := if t.buildId in before.builds then before.builds[t.buildId] else Build(Template("", "", "", 0), []);
      var dated := if t.createdAt == 0 then t.(createdAt := old_.template.createdAt) else t;
      Managed(dated, kept, before.builds[t.buildId := Build(dated, if kept == [] then old_.logs else kept)])
  }

  datatype Op = Upsert(template: Template, logs: Log) | Delete(id: string)

  /** A template with a blank ID is ignored. */
  function Apply(s: Store, op: Op): Store {
    match op
    case Upsert(t, logs) =>
      var id := TrimSpace(t.id);
      if id == "" then s
      else Store(s.templates[id := Upserted(Before(s, id), t.(id := id), logs)], s.deleted - {id})
    case Delete(id) => Store(s.templates - {id}, s.deleted + {id})
  }

  function Run(s: Store, ops: seq<Op>): Store
    decreases |ops|
  {
    if ops == [] then s else Run(Apply(s, ops[0]), ops[1..])
  }

  ghost predicate Valid(s: Store) {
    && s.templates.Keys !! s.deleted
    && (forall id :: id in s.templates ==> s.templates[id].template.id == id && id != "" && Trimmed(id))
  }

  class ManagementStore {
    var templates: map<string, Managed>
    var deletedTemplates: set<string>

    function View(): Store
      reads this
    {
      Store(templates, deletedTemplates)
    }

    constructor ()
      ensures View() == EMPTY
    {
      templates, deletedTemplates := map[], {};
    }

    method UpsertTemplate(template: Template, newLogs: Log) returns (saved: Template)
      modifies this
      ensures View() == Apply(old(View()), Upsert(template, newLogs))
      ensures saved.id == TrimSpace(template.id)
      ensures saved.id != "" ==>
                saved.id in templates && templates[saved.id].template == saved && saved.id !in deletedTemplates
    {
      var id := TrimSpace(template.id);
      saved := template.(id := id);
      if id == "" {
        return;
      }
      var existing := Managed(Template("", "", "", 0), [], map[]);
      if id in templates {
        existing := templates[id];
      }
      var builds := existing.builds;
      var logs := newLogs;
      if logs == [] {
        logs := existing.logs;
      }
      if TrimSpace(template.buildId) != "" {
        var build := Build(Template("", "", "", 0), []);
        if template.buildId in builds {
          build := builds[template.buildId];
        }
        var buildLogs := logs;
        if buildLogs == [] {
          buildLogs := build.logs;
        }
        if saved.createdAt == 0 && build.template.createdAt != 0 {
          saved := saved.(createdAt := build.template.createdAt);
        }
        builds := builds[template.buildId := Build(saved, buildLogs)];
      }
      templates := templates[id := Managed(saved, logs, builds)];
      deletedTemplates := deletedTemplates - {id};
    }

    method DeleteTemplate(id: string)
      modifies this
      ensures View() == Apply(old(View()), Delete(id))
    {
      templates := templates - {id};
      deletedTemplates := deletedTemplates + {id};
    }
  }

  lemma ApplyKeepsValid(s: Store, op: Op)
    requires Valid(s)
    ensures Valid(Apply(s, op))
  {
    if op.Upsert? {
      TrimSpaceTrims(op.template.id);
    }
  }

  lemma {:induction false} RunKeepsValid(s: Store, ops: seq<Op>)
    requires Valid(s)
    ensures Valid(Run(s, ops))
    decreases |ops|
  {
    if ops != [] {
      ApplyKeepsValid(s, ops[0]);
      RunKeepsValid(Apply(s, ops[0]), ops[1..]);
    }
  }

  /** Whether the last of the operations on an ID was an upsert, a deletion, or there was none. */
  datatype Fate = Untouched | LastUpserted(template: Template) | LastDeleted

  function Touch(op: Op): string {
    match op
    case Upsert(t, _) => TrimSpace(t.id)
    case Delete(id) => id
  }

  function FateOf(ops: seq<Op>, id: string): Fate
    decreases |ops|
  {
    if ops == [] then Untouched
    else
      var last := ops[|ops| - 1];
      if Touch(last) != id || (last.Upsert? && id == "") then FateOf(ops[..|ops| - 1], id)
      else if last.Upsert? then LastUpserted(last.template)
      else LastDeleted
  }

  lemma {:induction false} RunSnoc(s: Store, ops: seq<Op>, op: Op)
    ensures Run(s, ops + [op]) == Apply(Run(s, ops), op)
    decreases |ops|
  {
    if ops != [] {
      assert (ops + [op])[1..] == ops[1..] + [op];
      RunSnoc(Apply(s, ops[0]), ops[1..], op);
    } else {
      assert [op][1..] == [];
    }
  }

  /** After any operations from the empty store: an ID is managed exactly if its last operation was an upsert, with that
      template's status and build, and marked deleted exactly if it was a deletion. */
  lemma {:induction false} LastOperationWins(ops: seq<Op>, id: string)
    ensures var s := Run(EMPTY, ops);
            && (id in s.templates <==> FateOf(ops, id).LastUpserted?)
            && (id in s.deleted <==> FateOf(ops, id).LastDeleted?)
            && (id in s.templates ==>
                  var t, upserted := s.templates[id].template, FateOf(ops, id).template;
                  t.buildId == upserted.buildId && t.status == upserted.status
                  && (upserted.createdAt != 0 ==> t.createdAt == upserted.createdAt))
    decreases |ops|
  {
    if ops != [] {
      var front, last := ops[..|ops| - 1], ops[|ops| - 1];
      assert ops == front + [last];
      RunSnoc(EMPTY, front, last);
      LastOperationWins(front, id);
    }
  }

  // ---------------------------------------------------------------- what the store remembers of the operations

  datatype Upserting = Upserting(template: Template, logs: Log)

  /** The upserts of an ID since its last deletion, in their order. */
  function Upserts(ops: seq<Op>, id: string): seq<Upserting>
    decreases |ops|
  {
    if ops == [] then []
    else
      var front, last := ops[..|ops| - 1], ops[|ops| - 1];
      if Touch(last) != id || (last.Upsert? && id == "") then Upserts(front, id)
      else if last.Delete? then [] else Upserts(front, id) + [Upserting(last.template, last.logs)]
  }

  /** The last logs that are not empty. */
  function LastLogs(us: seq<Upserting>): Log {
    if us == [] then []
    else if us[|us| - 1].logs != [] then us[|us| - 1].logs else LastLogs(us[..|us| - 1])
  }

  /** The last creation time given for a build. */
  function LastDate(us: seq<Upserting>, buildId: string): nat {
    if us == [] then 0
    else
      var t := us[|us| - 1].template;
      if t.buildId == buildId && t.createdAt != 0 then t.createdAt else LastDate(us[..|us| - 1], buildId)
  }

  /** The upserts up to the last of a build. */
  function UpTo(us: seq<Upserting>, buildId: string): seq<Upserting> {
    if us == [] || us[|us| - 1].template.buildId == buildId then us else UpTo(us[..|us| - 1], buildId)
  }

  /** What an upsert says of a template, with the last creation time given for its build. */
  function Dated(us: seq<Upserting>, t: Template, id: string): Template {
    t.(id := id, createdAt := if TrimSpace(t.buildId) == "" then t.createdAt else LastDate(us, t.buildId))
  }

  ghost predicate BuildFits(us: seq<Upserting>, id: string, builds: map<string, Build>, buildId: string) {
    var upTo := UpTo(us, buildId);
    && (buildId in builds <==> TrimSpace(buildId) != "" && upTo != [])
    && (buildId in builds ==>
          builds[buildId] == Build(Dated(upTo, upTo[|upTo| - 1].template, id), LastLogs(upTo)))
  }

  ghost predicate Remembers(us: seq<Upserting>, id: string, m: Managed) {
    && us != [] && m.template == Dated(us, us[|us| - 1].template, id) && m.logs == LastLogs(us)
    && forall buildId :: BuildFits(us, id, m.builds, buildId)
  }

  /** A build has its last creation time since the last upsert of it. */
  lemma {:induction false} DateUpTo(us: seq<Upserting>, buildId: string)
    ensures LastDate(UpTo(us, buildId), buildId) == LastDate(us, buildId)
  {
    if us != [] && us[|us| - 1].template.buildId != buildId {
      DateUpTo(us[..|us| - 1], buildId);
    }
  }

  lemma {:induction false} LogsUpTo(us: seq<Upserting>, buildId: string)
    requires LastLogs(us) == []
    ensures LastLogs(UpTo(us, buildId)) == []
  {
    if us != [] && us[|us| - 1].template.buildId != buildId {
      LogsUpTo(us[..|us| - 1], buildId);
    }
  }

  lemma {:induction false} NoneUpTo(us: seq<Upserting>, buildId: string)
    ensures UpTo(us, buildId) == [] ==> LastDate(us, buildId) == 0
    ensures UpTo(us, buildId) != [] ==> UpTo(us, buildId)[|UpTo(us, buildId)| - 1].template.buildId == buildId
  {
    if us != [] && us[|us| - 1].template.buildId != buildId {
      NoneUpTo(us[..|us| - 1], buildId);
    }
  }

  /** The managed template that an upsert starts from. */
  ghost predicate StartsFrom(us: seq<Upserting>, id: string, before: Managed) {
    if us == [] then before == Managed(Template("", "", "", 0), [], map[]) else Remembers(us, id, before)
  }

  /** The build that an upsert starts from. */
  lemma BuildBefore(us: seq<Upserting>, id: string, before: Managed, buildId: string)
    requires StartsFrom(us, id, before) && TrimSpace(buildId) != ""
    ensures var old_ := if buildId in before.builds then before.builds[buildId] else Build(Template("", "", "", 0), []);
            && old_.template.createdAt == LastDate(us, buildId)
            && (LastLogs(us) == [] ==> old_.logs == [])
    ensures before.logs == LastLogs(us)
  {
    DateUpTo(us, buildId);
    NoneUpTo(us, buildId);
    assert us != [] ==> BuildFits(us, id, before.builds, buildId);
    if LastLogs(us) == [] {
      LogsUpTo(us, buildId);
    }
  }

  lemma OwnBuildFits(us: seq<Upserting>, id: string, before: Managed, t: Template, logs: Log)
    requires StartsFrom(us, id, before)
    ensures var more, m := us + [Upserting(t, logs)], Upserted(before, t.(id := id), logs);
            m.template == Dated(more, t.(id := id), id) && m.logs == LastLogs(more) && BuildFits(more, id, m.builds, t.buildId)
  {
    var more := us + [Upserting(t, logs)];
    assert more[..|more| - 1] == us;
    if TrimSpace(t.buildId) != "" {
      BuildBefore(us, id, before, t.buildId);
    } else {
      assert us != [] ==> BuildFits(us, id, before.builds, t.buildId);
    }
  }

  lemma OtherBuildFits(us: seq<Upserting>, id: string, before: Managed, t: Template, logs: Log, buildId: string)
    requires StartsFrom(us, id, before) && buildId != t.buildId
    ensures BuildFits(us + [Upserting(t, logs)], id, Upserted(before, t.(id := id), logs).builds, buildId)
  {
    var more := us + [Upserting(t, logs)];
    assert more[..|more| - 1] == us;
    assert us != [] ==> BuildFits(us, id, before.builds, buildId);
  }

  lemma UpsertRemembers(us: seq<Upserting>, id: string, before: Managed, t: Template, logs: Log)
    requires StartsFrom(us, id, before)
    ensures Remembers(us + [Upserting(t, logs)], id, Upserted(before, t.(id := id), logs))
  {
    var more := us + [Upserting(t, logs)];
    OwnBuildFits(us, id, before, t, logs);
    forall buildId ensures BuildFits(more, id, Upserted(before, t.(id := id), logs).builds, buildId) {
      if buildId != t.buildId {
        OtherBuildFits(us, id, before, t, logs, buildId);
      }
    }
  }

  /** After any operations, a managed template is as it was last upserted, with the last creation time given for its build;
      its logs are the last that were not empty; and each build that was named is as it was then. A deletion
      forgets all that. */
  lemma {:induction false} StoreRemembers(ops: seq<Op>, id: string)
    ensures id in Run(EMPTY, ops).templates <==> Upserts(ops, id) != []
    ensures id in Run(EMPTY, ops).templates ==> Remembers(Upserts(ops, id), id, Run(EMPTY, ops).templates[id])
    decreases |ops|
  {
    if ops != [] {
      var front, last := ops[..|ops| - 1], ops[|ops| - 1];
      assert ops == front + [last];
      RunSnoc(EMPTY, front, last);
      StoreRemembers(front, id);
      if Touch(last) == id && last.Upsert? && id != "" {
        UpsertRemembers(Upserts(front, id), id, Before(Run(EMPTY, front), id), last.template, last.logs);
      }
    }
  }

  lemma ManagedAndDeletedAreDisjoint(ops: seq<Op>)
    ensures Valid(Run(EMPTY, ops))
  {
    RunKeepsValid(EMPTY, ops);
  }

  // ---------------------------------------------------------------- the list

  predicate Older(a: Template, b: Template) {
    a.createdAt <= b.createdAt
  }

  /** The managed templates in the order in which the map is walked, sorted by creation time. */
  function ListManaged(walked: seq<Template>): seq<Template> {
    Sort(walked, Older)
  }

  /** `walked` lists the store's templates, each once. */
  ghost predicate Walks(walked: seq<Template>, s: Store) {
    && UniqueIds(walked)
    && (forall t :: t in walked <==> t.id in s.templates && s.templates[t.id].template == t)
  }

  predicate UniqueIds(ts: seq<Template>) {
    forall i, j :: 0 <= i < j < |ts| ==> ts[i].id != ts[j].id
  }

  predicate HasId(ts: seq<Template>, id: string) {
    exists i :: 0 <= i < |ts| && ts[i].id == id
  }

  function Kept(ts: seq<Template>, deleted: set<string>): seq<Template> {
    if ts == [] then []
    else
      var last := ts[|ts| - 1];
      Kept(ts[..|ts| - 1], deleted) + if last.id in deleted then [] else [last]
  }

  predicate IsLast(ts: seq<Template>, i: nat)
    requires i < |ts|
  {
    forall j :: i < j < |ts| ==> ts[j].id != ts[i].id
  }

  /** The managed templates that the runtime does not list. */
  function NotIn(managed: seq<Template>, kept: seq<Template>): seq<Template> {
    if managed == [] then []
    else
      var last := managed[|managed| - 1];
      NotIn(managed[..|managed| - 1], kept) + if HasId(kept, last.id) then [] else [last]
  }

  /** The runtime's template, or the managed one in its place; of several with one ID only the last is replaced. */
  ghost predicate Overrides(kept: seq<Template>, managed: seq<Template>, i: nat, t: Template)
    requires i < |kept|
  {
    && t.id == kept[i].id
    && if IsLast(kept, i) && HasId(managed, kept[i].id) then t in managed else t == kept[i]
  }

  /** What the list is: the runtime's templates in their order, those also managed replaced, and then the others managed. */
  ghost predicate IsOverlay(result: seq<Template>, kept: seq<Template>, managed: seq<Template>) {
    && |result| >= |kept|
    && (forall i :: 0 <= i < |kept| ==> Overrides(kept, managed, i, result[i]))
    && result[|kept|..] == NotIn(managed, kept)
  }

  /** The index map: for each ID in the result, where its last template is. */
  ghost predicate Indexes(index: map<string, nat>, result: seq<Template>) {
    && (forall id :: id in index <==> HasId(result, id))
    && (forall id :: id in index ==> index[id] < |result| && result[index[id]].id == id && IsLast(result, index[id]))
  }

  method ListTemplates(templates: seq<Template>, managed: seq<Template>, deleted: set<string>) returns (result: seq<Template>)
    requires UniqueIds(managed)
    ensures IsOverlay(result, Kept(templates, deleted), Kept(managed, deleted))
  {
    result := [];
    var indexById: map<string, nat> := map[];
    for n := 0 to |templates|
      invariant result == Kept(templates[..n], deleted)
      invariant Indexes(indexById, result)
    {
      var t := templates[n];
      assert templates[..n + 1][..n] == templates[..n];
      if t.id in deleted {
        continue;
      }
      IndexAppended(indexById, result, t);
      indexById := indexById[t.id := |result|];
      result := result + [t];
    }
    assert templates[..|templates|] == templates;
    result := LayOver(result, indexById, managed, deleted);
  }

  /** The second loop. */
  method LayOver(kept: seq<Template>, index: map<string, nat>, managed: seq<Template>, deleted: set<string>)
      returns (result: seq<Template>)
    requires UniqueIds(managed) && Indexes(index, kept)
    ensures IsOverlay(result, kept, Kept(managed, deleted))
  {
    result := kept;
    var indexById: map<string, nat> := index;
    for n := 0 to |managed|
      invariant Indexes(indexById, result)
      invariant IsOverlay(result, kept, Kept(managed[..n], deleted))
    {
      var t := managed[n];
      assert managed[..n + 1][..n] == managed[..n];
      KeptUnique(managed, deleted, n);
      if t.id in deleted {
        assert Kept(managed[..n + 1], deleted) == Kept(managed[..n], deleted);
        continue;
      }
      assert Kept(managed[..n + 1], deleted) == Kept(managed[..n], deleted) + [t];
      OverlayOneMore(result, kept, Kept(managed[..n], deleted), t, indexById);
      if t.id in indexById {
        result := result[indexById[t.id] := t];
        continue;
      }
      indexById := indexById[t.id := |result|];
      result := result + [t];
    }
    assert managed[..|managed|] == managed;
  }

  lemma IndexAppended(index: map<string, nat>, result: seq<Template>, t: Template)
    requires Indexes(index, result)
    ensures Indexes(index[t.id := |result|], result + [t])
  {
    var more := result + [t];
    forall id ensures id in index[t.id := |result|] <==> HasId(more, id) {
      if HasId(result, id) {
        var i :| 0 <= i < |result| && result[i].id == id;
        assert more[i].id == id;
      }
      assert more[|result|].id == t.id;
    }
  }

  lemma {:induction false} KeptFrom(ts: seq<Template>, deleted: set<string>, t: Template)
    ensures t in Kept(ts, deleted) <==> t in ts && t.id !in deleted
    decreases |ts|
  {
    if ts != [] {
      KeptFrom(ts[..|ts| - 1], deleted, t);
      assert ts == ts[..|ts| - 1] + [ts[|ts| - 1]];
    }
  }

  lemma KeptUnique(managed: seq<Template>, deleted: set<string>, n: nat)
    requires UniqueIds(managed) && n < |managed|
    ensures !HasId(Kept(managed[..n], deleted), managed[n].id)
  {
    var kept := Kept(managed[..n], deleted);
    forall i | 0 <= i < |kept| ensures kept[i].id != managed[n].id {
      KeptFrom(managed[..n], deleted, kept[i]);
    }
  }

  lemma OverlayOneMore(result: seq<Template>, kept: seq<Template>, managed: seq<Template>, t: Template, index: map<string, nat>)
    requires IsOverlay(result, kept, managed) && !HasId(managed, t.id) && Indexes(index, result)
    ensures t.id in index ==> index[t.id] < |result| && IsOverlay(result[index[t.id] := t], kept, managed + [t])
    ensures t.id in index ==> Indexes(index, result[index[t.id] := t])
    ensures t.id !in index ==> IsOverlay(result + [t], kept, managed + [t]) && Indexes(index[t.id := |result|], result + [t])
  {
    IndexAppended(index, result, t);
    NotInSnoc(managed, kept, t);
    if t.id in index {
      Replaced(result, kept, managed, t, index);
    } else {
      forall i | 0 <= i < |kept| ensures kept[i].id != t.id {
        assert result[i].id == kept[i].id;
      }
      assert !HasId(kept, t.id);
      forall i | 0 <= i < |kept| ensures Overrides(kept, managed + [t], i, (result + [t])[i]) {
        OverridesStill(kept, managed, t, i, result[i]);
      }
      assert (result + [t])[|kept|..] == result[|kept|..] + [t];
    }
  }

  lemma NotInSnoc(managed: seq<Template>, kept: seq<Template>, t: Template)
    ensures NotIn(managed + [t], kept) == NotIn(managed, kept) + if HasId(kept, t.id) then [] else [t]
  {
    assert (managed + [t])[..|managed|] == managed;
  }

  lemma OverridesStill(kept: seq<Template>, managed: seq<Template>, t: Template, i: nat, at: Template)
    requires i < |kept| && Overrides(kept, managed, i, at) && kept[i].id != t.id
    ensures Overrides(kept, managed + [t], i, at)
  {
    if HasId(managed, kept[i].id) {
      var j :| 0 <= j < |managed| && managed[j].id == kept[i].id;
      assert (managed + [t])[j].id == kept[i].id;
    }
  }

  lemma {:induction false} NotInFrom(managed: seq<Template>, kept: seq<Template>, x: Template)
    ensures x in NotIn(managed, kept) <==> x in managed && !HasId(kept, x.id)
    decreases |managed|
  {
    if managed != [] {
      NotInFrom(managed[..|managed| - 1], kept, x);
      assert managed == managed[..|managed| - 1] + [managed[|managed| - 1]];
    }
  }

  lemma Replaced(result: seq<Template>, kept: seq<Template>, managed: seq<Template>, t: Template, index: map<string, nat>)
    requires IsOverlay(result, kept, managed) && !HasId(managed, t.id) && Indexes(index, result) && t.id in index
    ensures IsOverlay(result[index[t.id] := t], kept, managed + [t])
    ensures Indexes(index, result[index[t.id] := t])
  {
    var k, result' := index[t.id], result[index[t.id] := t];
    NotInSnoc(managed, kept, t);
    if k >= |kept| {
      assert result[|kept|..][k - |kept|] == result[k];
      NotInFrom(managed, kept, result[k]);
      assert HasId(managed, t.id);
    }
    assert kept[k].id == t.id && HasId(kept, t.id);
    assert IsLast(kept, k) by {
      forall j | k < j < |kept| ensures kept[j].id != kept[k].id {
        assert result[j].id == kept[j].id;
      }
    }
    assert (managed + [t])[|managed|] == t;
    forall i | 0 <= i < |kept| ensures Overrides(kept, managed + [t], i, result'[i]) {
      if kept[i].id != t.id {
        OverridesStill(kept, managed, t, i, result[i]);
      }
    }
    assert result'[|kept|..] == result[|kept|..];
    SameIds(result, result', index);
  }

  lemma SameIds(result: seq<Template>, result': seq<Template>, index: map<string, nat>)
    requires Indexes(index, result) && |result| == |result'|
    requires forall i :: 0 <= i < |result| ==> result[i].id == result'[i].id
    ensures Indexes(index, result')
  {
    forall id ensures HasId(result, id) <==> HasId(result', id) {
      if HasId(result, id) {
        var i :| 0 <= i < |result| && result[i].id == id;
        assert result'[i].id == id;
      }
    }
  }

  // ---------------------------------------------------------------- what the list means

  lemma {:induction false} NotInUnique(managed: seq<Template>, kept: seq<Template>)
    requires UniqueIds(managed)
    ensures UniqueIds(NotIn(managed, kept))
    decreases |managed|
  {
    if managed != [] {
      var front, last := managed[..|managed| - 1], managed[|managed| - 1];
      NotInUnique(front, kept);
      var others := NotIn(front, kept);
      forall i | 0 <= i < |others| ensures others[i].id != last.id {
        NotInFrom(front, kept, others[i]);
      }
    }
  }

  lemma {:induction false} KeptStaysUnique(ts: seq<Template>, deleted: set<string>)
    requires UniqueIds(ts)
    ensures UniqueIds(Kept(ts, deleted))
    decreases |ts|
  {
    if ts != [] {
      var front, last := ts[..|ts| - 1], ts[|ts| - 1];
      KeptStaysUnique(front, deleted);
      var others := Kept(front, deleted);
      forall i | 0 <= i < |others| ensures others[i].id != last.id {
        KeptFrom(front, deleted, others[i]);
      }
    }
  }

  /** The list names each ID once exactly if the runtime does, deleted ones aside. */
  lemma EachIdOnce(result: seq<Template>, kept: seq<Template>, managed: seq<Template>)
    requires IsOverlay(result, kept, managed) && UniqueIds(managed)
    ensures UniqueIds(result) <==> UniqueIds(kept)
  {
    var others := NotIn(managed, kept);
    NotInUnique(managed, kept);
    forall i | 0 <= i < |kept| ensures result[i].id == kept[i].id {
      assert Overrides(kept, managed, i, result[i]);
    }
    if UniqueIds(kept) {
      forall i, j | 0 <= i < j < |result| ensures result[i].id != result[j].id {
        if i < |kept| <= j {
          assert others[j - |kept|] == result[j];
          NotInFrom(managed, kept, result[j]);
        } else if i >= |kept| {
          assert others[i - |kept|] == result[i] && others[j - |kept|] == result[j];
        }
      }
    }
    if UniqueIds(result) {
      forall i, j | 0 <= i < j < |kept| ensures kept[i].id != kept[j].id {
        assert result[i].id != result[j].id;
      }
    }
  }

  /** The list is a map override: it holds a template exactly if that is managed, or is the runtime's and its ID is not
      managed. */
  lemma OverlayOverrides(result: seq<Template>, kept: seq<Template>, managed: seq<Template>, t: Template)
    requires IsOverlay(result, kept, managed) && UniqueIds(managed) && UniqueIds(kept)
    ensures t in result <==> t in managed || (t in kept && !HasId(managed, t.id))
  {
    var others := NotIn(managed, kept);
    NotInFrom(managed, kept, t);
    if t in result {
      var i :| 0 <= i < |result| && result[i] == t;
      if i < |kept| {
        assert Overrides(kept, managed, i, t);
      } else {
        assert others[i - |kept|] == t;
      }
    }
    if t in managed && HasId(kept, t.id) {
      var i :| 0 <= i < |kept| && kept[i].id == t.id;
      var j :| 0 <= j < |managed| && managed[j] == t;
      assert Overrides(kept, managed, i, result[i]) && IsLast(kept, i) && HasId(managed, kept[i].id);
      var k :| 0 <= k < |managed| && managed[k] == result[i];
      assert k == j;
    } else if t in managed {
      var k :| 0 <= k < |others| && others[k] == t;
      assert result[|kept|..][k] == result[|kept| + k];
    } else if t in kept && !HasId(managed, t.id) {
      var i :| 0 <= i < |kept| && kept[i] == t;
      assert Overrides(kept, managed, i, result[i]);
    }
  }

  lemma {:induction false} NotInStaysSorted(managed: seq<Template>, kept: seq<Template>)
    requires Sorted(managed, Older)
    ensures Sorted(NotIn(managed, kept), Older)
    decreases |managed|
  {
    if managed != [] {
      var front, last := managed[..|managed| - 1], managed[|managed| - 1];
      NotInStaysSorted(front, kept);
      var others := NotIn(front, kept);
      forall i | 0 <= i < |others| ensures Older(others[i], last) {
        NotInFrom(front, kept, others[i]);
      }
    }
  }

  lemma {:induction false} KeptStaysSorted(ts: seq<Template>, deleted: set<string>)
    requires Sorted(ts, Older)
    ensures Sorted(Kept(ts, deleted), Older)
    decreases |ts|
  {
    if ts != [] {
      var front, last := ts[..|ts| - 1], ts[|ts| - 1];
      KeptStaysSorted(front, deleted);
      var others := Kept(front, deleted);
      forall i | 0 <= i < |others| ensures Older(others[i], last) {
        KeptFrom(front, deleted, others[i]);
      }
    }
  }

  lemma SortKeepsIdsUnique(ts: seq<Template>)
    requires UniqueIds(ts)
    ensures UniqueIds(ListManaged(ts))
  {
    KeyOrderIsTotal(Older, (x: Template) => x.createdAt);
    SortSorts(ts, Older);
    SameElementsStayDistinct(ts, ListManaged(ts));
    var sorted := ListManaged(ts);
    forall i, j | 0 <= i < j < |sorted| ensures sorted[i].id != sorted[j].id {
      assert sorted[i] in ts && sorted[j] in ts;
    }
  }

  predicate IsManaged(s: Store, t: Template) {
    t.id in s.templates && s.templates[t.id].template == t
  }

  /** What a listing shows that reads the deleted IDs after the operations `ops`, and the managed templates after the
      operations `more` that follow. */
  ghost predicate Shows(ops: seq<Op>, more: seq<Op>, runtime: seq<Template>, t: Template) {
    !FateOf(ops, t.id).LastDeleted?
    && if FateOf(ops + more, t.id).LastUpserted? then IsManaged(Run(EMPTY, ops + more), t) else t in runtime
  }

  lemma HoldsId(managed: seq<Template>, s: Store, id: string)
    requires forall x :: x in managed <==> IsManaged(s, x)
    requires Valid(s)
    ensures HasId(managed, id) <==> id in s.templates
  {
    if HasId(managed, id) {
      var i :| 0 <= i < |managed| && managed[i].id == id;
      assert managed[i] in managed;
    }
    if id in s.templates {
      var own := s.templates[id].template;
      assert own in managed;
      var i :| 0 <= i < |managed| && managed[i] == own;
      assert managed[i].id == id;
    }
  }

  lemma {:induction false} KeptHolds(ts: seq<Template>, deleted: set<string>, id: string)
    ensures HasId(Kept(ts, deleted), id) <==> HasId(ts, id) && id !in deleted
  {
    if HasId(Kept(ts, deleted), id) {
      var i :| 0 <= i < |Kept(ts, deleted)| && Kept(ts, deleted)[i].id == id;
      KeptFrom(ts, deleted, Kept(ts, deleted)[i]);
      var j :| 0 <= j < |ts| && ts[j] == Kept(ts, deleted)[i];
    }
    if HasId(ts, id) && id !in deleted {
      var i :| 0 <= i < |ts| && ts[i].id == id;
      KeptFrom(ts, deleted, ts[i]);
      var j :| 0 <= j < |Kept(ts, deleted)| && Kept(ts, deleted)[j] == ts[i];
    }
  }

  lemma ListedIf(ops: seq<Op>, more: seq<Op>, runtime: seq<Template>, managed: seq<Template>, result: seq<Template>,
      t: Template)
    requires UniqueIds(managed) && forall x :: x in managed <==> IsManaged(Run(EMPTY, ops + more), x)
    requires var deleted := Run(EMPTY, ops).deleted;
             && UniqueIds(Kept(runtime, deleted)) && UniqueIds(Kept(managed, deleted))
             && IsOverlay(result, Kept(runtime, deleted), Kept(managed, deleted))
    ensures t in result <==> Shows(ops, more, runtime, t)
  {
    var deleted := Run(EMPTY, ops).deleted;
    LastOperationWins(ops, t.id);
    LastOperationWins(ops + more, t.id);
    ManagedAndDeletedAreDisjoint(ops + more);
    KeptFrom(runtime, deleted, t);
    KeptFrom(managed, deleted, t);
    KeptHolds(managed, deleted, t.id);
    HoldsId(managed, Run(EMPTY, ops + more), t.id);
    OverlayOverrides(result, Kept(runtime, deleted), Kept(managed, deleted), t);
  }

  /** The list of templates, for a runtime that names each ID once. The deleted IDs and the managed templates are read under
      the store's lock one after the other; `more` are the operations in between. No ID is listed twice, and none that was
      deleted at the first reading; an ID managed at the second has its managed template, and any other the runtime's. First
      come the runtime's in its order, then the others managed, oldest first. */
  lemma ListAfterOperations(ops: seq<Op>, more: seq<Op>, runtime: seq<Template>, walked: seq<Template>,
      result: seq<Template>)
    requires UniqueIds(runtime) && Walks(walked, Run(EMPTY, ops + more))
    requires IsOverlay(result, Kept(runtime, Run(EMPTY, ops).deleted), Kept(ListManaged(walked), Run(EMPTY, ops).deleted))
    ensures UniqueIds(result)
    ensures forall t :: t in result <==> Shows(ops, more, runtime, t)
    ensures var kept := Kept(runtime, Run(EMPTY, ops).deleted);
            && |kept| <= |result|
            && (forall i :: 0 <= i < |kept| ==> result[i].id == kept[i].id)
            && Sorted(result[|kept|..], Older)
  {
    var deleted := Run(EMPTY, ops).deleted;
    var managed := ListManaged(walked);
    var kept := Kept(runtime, deleted);
    KeyOrderIsTotal(Older, (x: Template) => x.createdAt);
    SortSorts(walked, Older);
    SortKeepsIdsUnique(walked);
    KeptStaysUnique(runtime, deleted);
    KeptStaysUnique(managed, deleted);
    KeptStaysSorted(managed, deleted);
    EachIdOnce(result, kept, Kept(managed, deleted));
    NotInStaysSorted(Kept(managed, deleted), kept);
    forall t ensures t in result <==> Shows(ops, more, runtime, t) {
      ListedIf(ops, more, runtime, managed, result, t);
    }
    forall i | 0 <= i < |kept| ensures result[i].id == kept[i].id {
      assert Overrides(kept, Kept(managed, deleted), i, result[i]);
    }
  }

  /** With no operation in between, the list is that of the store: its templates, and the runtime's for IDs that no operation
      was about. */
  lemma UndisturbedListing(ops: seq<Op>, runtime: seq<Template>, t: Template)
    ensures Shows(ops, [], runtime, t) <==>
              match FateOf(ops, t.id)
              case Untouched => t in runtime
              case LastDeleted => false
              case LastUpserted(_) => IsManaged(Run(EMPTY, ops), t)
  {
    assert ops + [] == ops;
  }

  /** A template that is deleted between the two readings is still listed if the runtime has it; one that was deleted
      before and is stored anew in between is not listed. */
  lemma BetweenTheReadings(ops: seq<Op>, more: seq<Op>, runtime: seq<Template>, t: Template)
    ensures FateOf(ops + more, t.id).LastDeleted? && !FateOf(ops, t.id).LastDeleted? ==>
              (Shows(ops, more, runtime, t) <==> t in runtime)
    ensures FateOf(ops + more, t.id).LastUpserted? && FateOf(ops, t.id).LastDeleted? ==> !Shows(ops, more, runtime, t)
  {
  }
}
