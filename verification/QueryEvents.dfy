/** Domain events and the cache actions they stand for. */
module QueryEvents {
  import opened Results
  import opened QueryCache

  datatype Placement = Placement(page: string, parent: Option<string>) {
    function Container(): (uuid: string) {
      if parent.Some? then parent.value else page
    }
  }

  datatype BlockChange = BlockChange(uuid: string, before: Option<Placement>, after: Option<Placement>)

  datatype ChangeSet = ChangeSet(
    blocks: seq<BlockChange>,
    changedPages: seq<string>,
    deletedPages: seq<string>,
    affectedPages: seq<string>,
    attachmentOwners: seq<string>,
    handwritingPages: seq<string>,
    graphChangedContent: seq<string>,
    historyChanged: bool)

  datatype Event =
    | WorkspaceReplaced
    | MutationCommitted(changes: ChangeSet)
    | PagesChanged(pages: seq<string>)
    | SettingsChanged
    | SyncStatusChanged
    | ServerAiChanged

  // ---- ordered sets ----

  function Add(s: seq<string>, x: string): (r: seq<string>) {
    if x in s then s else s + [x]
  }

  function AddAll(s: seq<string>, xs: seq<string>): (r: seq<string>)
    decreases |xs|
  {
    if xs == [] then s else AddAll(Add(s, xs[0]), xs[1..])
  }

  function Without(s: seq<string>, xs: seq<string>): (r: seq<string>) {
    if s == [] then [] else (if s[0] in xs then [] else [s[0]]) + Without(s[1..], xs)
  }

  lemma {:induction false} AddAllHas(s: seq<string>, xs: seq<string>, x: string)
    ensures x in AddAll(s, xs) <==> x in s || x in xs
    decreases |xs|
  {
    if xs != [] {
      AddAllHas(Add(s, xs[0]), xs[1..], x);
      assert xs == [xs[0]] + xs[1..];
    }
  }

  lemma {:induction false} WithoutHas(s: seq<string>, xs: seq<string>, x: string)
    ensures x in Without(s, xs) <==> x in s && x !in xs
  {
    if s != [] {
      WithoutHas(s[1..], xs, x);
      assert s == [s[0]] + s[1..];
    }
  }

  // ---- what a change set concerns ----

  function PlacementsOf(b: BlockChange): (ps: seq<Placement>) {
    (if b.before.Some? then [b.before.value] else []) + (if b.after.Some? then [b.after.value] else [])
  }

  function PagesOf(b: BlockChange): (pages: seq<string>) {
    var ps := PlacementsOf(b);
    seq(|ps|, i requires 0 <= i < |ps| => ps[i].page)
  }

  function ContainersOf(b: BlockChange): (containers: seq<string>) {
    var ps := PlacementsOf(b);
    seq(|ps|, i requires 0 <= i < |ps| => ps[i].Container())
  }

  /** The sets filled while going through the changed blocks. */
  datatype Gathered = Gathered(
    affected: seq<string>,
    containers: seq<string>,
    changed: seq<string>,
    deleted: seq<string>)
  {
    function With(b: BlockChange): (g: Gathered) {
      Gathered(
        AddAll(affected, PagesOf(b)),
        AddAll(containers, ContainersOf(b)),
        if b.after.Some? then changed + [b.uuid] else changed,
        if b.after.Some? then deleted else Add(deleted, b.uuid))
    }
  }

  function GatherBlocks(g: Gathered, blocks: seq<BlockChange>): (r: Gathered)
    decreases |blocks|
  {
    if blocks == [] then g else GatherBlocks(g.With(blocks[0]), blocks[1..])
  }

  function GatheredFrom(c: ChangeSet): (g: Gathered) {
    GatherBlocks(Gathered(AddAll(AddAll([], c.affectedPages), c.changedPages), [], [], []), c.blocks)
  }

  // ---- lists of actions ----

  function Each(uuids: seq<string>, actions: string -> seq<Action>): (r: seq<Action>) {
    if uuids == [] then [] else actions(uuids[0]) + Each(uuids[1..], actions)
  }

  lemma {:induction false} EachHas(uuids: seq<string>, actions: string -> seq<Action>, uuid: string, a: Action)
    requires uuid in uuids && a in actions(uuid)
    ensures a in Each(uuids, actions)
  {
    if uuid != uuids[0] {
      EachHas(uuids[1..], actions, uuid, a);
    }
  }

  lemma {:induction false} EachJoin(a: seq<string>, b: seq<string>, actions: string -> seq<Action>)
    ensures Each(a + b, actions) == Each(a, actions) + Each(b, actions)
  {
    if a == [] {
      assert a + b == b;
    } else {
      EachJoin(a[1..], b, actions);
      assert (a + b)[1..] == a[1..] + b;
      assert actions(a[0]) + (Each(a[1..], actions) + Each(b, actions))
             == actions(a[0]) + Each(a[1..], actions) + Each(b, actions);
    }
  }

  function DeletedBlock(uuid: string): (actions: seq<Action>) {
    [Clear(BlockKey(uuid), NullData), Clear(ChildrenKey(uuid), EmptyList), Clear(AttachmentsKey(uuid), EmptyList)]
  }

  function DeletedPage(uuid: string): (actions: seq<Action>) {
    [Clear(PageKey(uuid), NullData), Clear(DocumentKey(uuid), NullData), Clear(RenderKey(uuid), NullData),
     Clear(ChildrenKey(uuid), EmptyList), Clear(AttachmentsKey(uuid), EmptyList), Remove(StatusKey(uuid))]
  }

  function ForgetPage(uuid: string): (actions: seq<Action>) { [RemoveInactiveNull(PageKey(uuid))] }

  function ForgetDocument(uuid: string): (actions: seq<Action>) {
    [RemoveInactiveNull(DocumentKey(uuid)), RemoveInactiveNull(RenderKey(uuid))]
  }

  function ForgetBlock(uuid: string): (actions: seq<Action>) { [RemoveInactiveNull(BlockKey(uuid))] }

  function RefreshDocument(uuid: string): (actions: seq<Action>) {
    [Exact(DocumentKey(uuid)), Exact(RenderKey(uuid))]
  }

  function RefreshBlock(uuid: string): (actions: seq<Action>) { [Exact(BlockKey(uuid))] }

  function RefreshChildren(uuid: string): (actions: seq<Action>) { [Exact(ChildrenKey(uuid))] }

  function RefreshPage(uuid: string): (actions: seq<Action>) { [Exact(PageKey(uuid)), Exact(StatusKey(uuid))] }

  function RefreshAttachments(uuid: string): (actions: seq<Action>) { [Exact(AttachmentsKey(uuid))] }

  function RefreshHandwriting(uuid: string): (actions: seq<Action>) {
    [Exact(StatusKey(uuid)), Family(VersionsKey(uuid))]
  }

  function PagesRefresh(uuid: string): (actions: seq<Action>) {
    [Family(PageKey(uuid))]
  }

  function StatusRefresh(uuid: string): (actions: seq<Action>) {
    [Family(StatusKey(uuid))]
  }

  function When(condition: bool, actions: seq<Action>): (r: seq<Action>) {
    if condition then actions else []
  }

  function UuidsOf(blocks: seq<BlockChange>): (uuids: seq<string>) {
    seq(|blocks|, i requires 0 <= i < |blocks| => blocks[i].uuid)
  }

  predicate AnyContent(c: ChangeSet) {
    c.blocks != [] || c.changedPages != [] || c.deletedPages != []
  }

  function Removals(c: ChangeSet): (actions: seq<Action>) {
    Each(GatheredFrom(c).deleted, DeletedBlock) + Each(AddAll([], c.deletedPages), DeletedPage)
  }

  function LiveAffected(c: ChangeSet): (pages: seq<string>) {
    Without(GatheredFrom(c).affected, c.deletedPages)
  }

  function LiveContainers(c: ChangeSet): (uuids: seq<string>) {
    Without(Without(GatheredFrom(c).containers, GatheredFrom(c).deleted), c.deletedPages)
  }

  function Forgotten(c: ChangeSet): (actions: seq<Action>) {
    Each(Without(c.changedPages, c.deletedPages), ForgetPage) + Each(LiveAffected(c), ForgetDocument)
    + Each(GatheredFrom(c).changed, ForgetBlock)
  }

  function Refreshes(c: ChangeSet): (actions: seq<Action>) {
    Each(LiveAffected(c), RefreshDocument) + Each(GatheredFrom(c).changed, RefreshBlock)
    + Each(LiveContainers(c), RefreshChildren) + Each(Without(c.changedPages, c.deletedPages), RefreshPage)
    + Each(Without(Without(c.attachmentOwners, c.deletedPages), GatheredFrom(c).deleted), RefreshAttachments)
    + Each(Without(c.handwritingPages, c.deletedPages), RefreshHandwriting)
  }

  function BacklinkActions(c: ChangeSet): (actions: seq<Action>) {
    if c.graphChangedContent != [] then [Family(BACKLINKS)]
    else When(AnyContent(c), [RefreshEmbedding(UuidsOf(c.blocks), c.changedPages + c.deletedPages)])
  }

  function FamilyRefreshes(c: ChangeSet): (actions: seq<Action>) {
    When(c.changedPages != [] || c.deletedPages != [], [Family(PAGES), Family(JOURNALS)])
    + When(c.graphChangedContent != [], [Family(GRAPH)]) + BacklinkActions(c)
    + When(c.attachmentOwners != [], [Family(ATTACHMENT_IMAGES)]) + When(c.historyChanged, [Exact(HISTORY)])
  }

  /** Everything an event does to the cached backend queries. */
  function ActionsOf(e: Event): (actions: seq<Action>) {
    match e
    case WorkspaceReplaced => [RemoveInactive(Selection(ROOT, false)), Family(ROOT)]
    case MutationCommitted(c) => Removals(c) + Forgotten(c) + Refreshes(c) + FamilyRefreshes(c)
    case PagesChanged(pages) =>
      [Family(PAGES), Family(JOURNALS), Family(GRAPH), Family(BACKLINKS)]
      + Each(pages, PagesRefresh) + Each(pages, StatusRefresh)
    case SettingsChanged => [Family(SETTINGS)]
    case SyncStatusChanged => [Family(SYNC_STATUS), Family(HANDWRITING_STATUS)]
    case ServerAiChanged => [Family(SERVER_AI)]
  }

  /** Whether the local search signal is bumped. */
  predicate Bumps(e: Event) {
    e.MutationCommitted? && AnyContent(e.changes)
  }

  /** Inactive nulls are only forgotten where a refresh follows, so nothing is forgotten
      without being touched. */
  lemma ForgottenIsRefreshed(c: ChangeSet, k: Key)
    requires RemoveInactiveNull(k) in Forgotten(c)
    ensures Exact(k) in Refreshes(c)
  {
    var pages, affected, changed :=
      Without(c.changedPages, c.deletedPages), LiveAffected(c), GatheredFrom(c).changed;
    if RemoveInactiveNull(k) in Each(pages, ForgetPage) {
      var uuid := EachFrom(pages, ForgetPage, RemoveInactiveNull(k));
      EachHas(pages, RefreshPage, uuid, Exact(k));
    } else if RemoveInactiveNull(k) in Each(affected, ForgetDocument) {
      var uuid := EachFrom(affected, ForgetDocument, RemoveInactiveNull(k));
      EachHas(affected, RefreshDocument, uuid, Exact(k));
    } else {
      var uuid := EachFrom(changed, ForgetBlock, RemoveInactiveNull(k));
      EachHas(changed, RefreshBlock, uuid, Exact(k));
    }
  }

  lemma {:induction false} EachFrom(uuids: seq<string>, actions: string -> seq<Action>, a: Action) returns (uuid: string)
    requires a in Each(uuids, actions)
    ensures uuid in uuids && a in actions(uuid)
  {
    if a in actions(uuids[0]) {
      uuid := uuids[0];
    } else {
      uuid := EachFrom(uuids[1..], actions, a);
    }
  }
}
