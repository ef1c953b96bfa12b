/** Cross-file resolution of a specification set, and the well-formed backlog it hands the planner. */
module SpecIndex {
  import opened Domain

  datatype Document =
    | UseCase(ucId: string)
    | Feature(featId: string, ucParent: string)
    | Backlog(item: BL, featParent: string)
  {
    function Id(): string {
      match this
      case UseCase(id) => id
      case Feature(id, _) => id
      case Backlog(bl, _) => bl.id
    }

    function Parent(): Option<string> {
      match this
      case UseCase(_) => None
      case Feature(_, p) => Some(p)
      case Backlog(_, p) => Some(p)
    }
  }

  datatype IndexError = DuplicateId(at: nat) | BadParent(at: nat) | UnknownDependency(at: nat)

  datatype Index = Index(documents: seq<Document>, byId: map<string, Document>, children: map<string, seq<string>>)

  type ById = map<string, Document>

  /** A backlog item hangs under a feature, a feature under a use case. */
  predicate ParentOk(d: Document, byId: ById) {
    match d.Parent()
    case None => true
    case Some(p) => p in byId && (if d.Backlog? then byId[p].Feature? else byId[p].UseCase?)
  }

  predicate DependenciesOk(d: Document, byId: ById) {
    d.Backlog? ==> forall dep :: dep in d.item.dependsOn ==> dep in byId && byId[dep].Backlog?
  }

  ghost predicate UniqueIds(docs: seq<Document>) {
    forall i, j :: 0 <= i < j < |docs| ==> docs[i].Id() != docs[j].Id()
  }

  /** `byId` finds exactly the documents listed. */
  ghost predicate Indexes(byId: ById, docs: seq<Document>) {
    && (forall d :: d in docs ==> d.Id() in byId && byId[d.Id()] == d)
    && forall id :: id in byId ==> byId[id] in docs && byId[id].Id() == id
  }

  ghost predicate IsItem(docs: seq<Document>, id: string) {
    exists q :: q in docs && q.Backlog? && q.Id() == id
  }

  /** The document hangs where it should, said without the index. */
  ghost predicate HasParent(docs: seq<Document>, d: Document) {
    && (d.Feature? ==> exists p :: p in docs && p.UseCase? && p.Id() == d.ucParent)
    && (d.Backlog? ==> exists p :: p in docs && p.Feature? && p.Id() == d.featParent)
  }

  ghost predicate HasDependencies(docs: seq<Document>, d: Document) {
    d.Backlog? ==> forall dep :: dep in d.item.dependsOn ==> IsItem(docs, dep)
  }

  /** What a reader expects of a resolved specification set. */
  ghost predicate Consistent(docs: seq<Document>) {
    UniqueIds(docs) && forall d :: d in docs ==> HasParent(docs, d) && HasDependencies(docs, d)
  }

  /** The error names the first document that fails its check, after every earlier check passed. */
  ghost predicate Blames(e: IndexError, docs: seq<Document>) {
    && e.at < |docs|
    && match e
       case DuplicateId(at) => UniqueIds(docs[..at]) && exists i :: 0 <= i < at && docs[i].Id() == docs[at].Id()
       case BadParent(at) => UniqueIds(docs) && !HasParent(docs, docs[at]) && forall k :: 0 <= k < at ==> HasParent(docs, docs[k])
       case UnknownDependency(at) =>
         && UniqueIds(docs) && (forall d :: d in docs ==> HasParent(docs, d))
         && !HasDependencies(docs, docs[at]) && forall k :: 0 <= k < at ==> HasDependencies(docs, docs[k])
  }

  method IndexById(docs: seq<Document>) returns (r: Result<ById, IndexError>)
    ensures r.Ok? ==> UniqueIds(docs) && Indexes(r.value, docs)
    ensures r.Err? ==> r.error.DuplicateId? && Blames(r.error, docs)
  {
    var byId: ById := map[];
    for i := 0 to |docs|
      invariant UniqueIds(docs[..i]) && Indexes(byId, docs[..i])
    {
      if docs[i].Id() in byId {
        var k :| 0 <= k < i && docs[k] == byId[docs[i].Id()];
        return Err(DuplicateId(i));
      }
      byId := byId[docs[i].Id() := docs[i]];
      assert docs[..i+1] == docs[..i] + [docs[i]];
    }
    assert docs[..|docs|] == docs;
    return Ok(byId);
  }

  /** The children of each parent, in discovery order. */
  function Children(docs: seq<Document>, parent: string): seq<string> {
    if docs == [] then [] else
      var last := docs[|docs|-1];
      Children(docs[..|docs|-1], parent) + (if last.Parent() == Some(parent) then [last.Id()] else [])
  }

  method CollectChildren(docs: seq<Document>) returns (children: map<string, seq<string>>)
    ensures forall p :: (if p in children then children[p] else []) == Children(docs, p)
  {
    children := map[];
    for i := 0 to |docs|
      invariant forall p :: (if p in children then children[p] else []) == Children(docs[..i], p)
    {
      assert docs[..i+1][..i] == docs[..i];
      match docs[i].Parent() {
        case None =>
        case Some(p) =>
          children := children[p := (if p in children then children[p] else []) + [docs[i].Id()]];
      }
    }
    assert docs[..|docs|] == docs;
  }

  /** The first document whose parent is missing or of the wrong kind. */
  method CheckParents(docs: seq<Document>, byId: ById) returns (bad: Option<nat>)
    ensures bad.None? <==> forall d :: d in docs ==> ParentOk(d, byId)
    ensures bad.Some? ==> bad.value < |docs| && !ParentOk(docs[bad.value], byId)
                          && forall k :: 0 <= k < bad.value ==> ParentOk(docs[k], byId)
  {
    for i := 0 to |docs|
      invariant forall k :: 0 <= k < i ==> ParentOk(docs[k], byId)
    {
      if !ParentOk(docs[i], byId) {
        return Some(i);
      }
    }
    return None;
  }

  /** The first backlog item that depends on something other than a backlog item. */
  method CheckDependencies(docs: seq<Document>, byId: ById) returns (bad: Option<nat>)
    ensures bad.None? <==> forall d :: d in docs ==> DependenciesOk(d, byId)
    ensures bad.Some? ==> bad.value < |docs| && !DependenciesOk(docs[bad.value], byId)
                          && forall k :: 0 <= k < bad.value ==> DependenciesOk(docs[k], byId)
  {
    for i := 0 to |docs|
      invariant forall k :: 0 <= k < i ==> DependenciesOk(docs[k], byId)
    {
      if !DependenciesOk(docs[i], byId) {
        return Some(i);
      }
    }
    return None;
  }

  /** Looking up the index is looking through the documents. */
  lemma LookupsAgree(docs: seq<Document>, byId: ById, d: Document)
    requires Indexes(byId, docs) && d in docs
    ensures ParentOk(d, byId) <==> HasParent(docs, d)
    ensures DependenciesOk(d, byId) <==> HasDependencies(docs, d)
  {
    if d.Backlog? {
      forall dep | dep in d.item.dependsOn ensures IsItem(docs, dep) <==> dep in byId && byId[dep].Backlog? {
        if dep in byId { assert byId[dep] in docs; }
      }
    }
  }

  /** The index is built exactly for the consistent sets; otherwise the first check that fails names
      its first offending document. */
  method BuildIndex(docs: seq<Document>) returns (r: Result<Index, IndexError>)
    ensures r.Ok? <==> Consistent(docs)
    ensures r.Ok? ==> r.value.documents == docs && Indexes(r.value.byId, docs)
    ensures r.Ok? ==> forall p ::
      (if p in r.value.children then r.value.children[p] else []) == Children(docs, p)
    ensures r.Err? ==> Blames(r.error, docs)
  {
    var indexed := IndexById(docs);
    if indexed.Err? {
      return Err(indexed.error);
    }
    var byId := indexed.value;
    forall d | d in docs {
      LookupsAgree(docs, byId, d);
    }
    var bad := CheckParents(docs, byId);
    if bad.Some? {
      return Err(BadParent(bad.value));
    }
    bad := CheckDependencies(docs, byId);
    if bad.Some? {
      return Err(UnknownDependency(bad.value));
    }
    var children := CollectChildren(docs);
    return Ok(Index(docs, byId, children));
  }

  // ----- the backlog the planner works on -----

  function Items(docs: seq<Document>): seq<BL> {
    if docs == [] then [] else
      var last := docs[|docs|-1];
      Items(docs[..|docs|-1]) + (if last.Backlog? then [last.item] else [])
  }

  function Ids(backlog: seq<BL>): set<string> {
    set bl | bl in backlog :: bl.id
  }

  /** Backlog identifiers carry the `BL-` prefix their pattern demands. */
  predicate BacklogId(id: string) {
    "BL-" <= id
  }

  ghost predicate ValidBacklog(backlog: seq<BL>) {
    && (forall i, j :: 0 <= i < j < |backlog| ==> backlog[i].id != backlog[j].id)
    && (forall bl :: bl in backlog ==> BacklogId(bl.id))
    && forall bl, dep :: bl in backlog && dep in bl.dependsOn ==> dep in Ids(backlog)
  }

  lemma {:induction false} ItemsAreDocuments(docs: seq<Document>)
    ensures forall bl :: bl in Items(docs) <==> exists d :: d in docs && d.Backlog? && d.item == bl
    ensures UniqueIds(docs) ==> forall i, j :: 0 <= i < j < |Items(docs)| ==> Items(docs)[i].id != Items(docs)[j].id
    decreases |docs|
  {
    if docs != [] {
      var init, last := docs[..|docs|-1], docs[|docs|-1];
      ItemsAreDocuments(init);
      assert docs == init + [last];
      if UniqueIds(docs) {
        forall bl | bl in Items(init) ensures bl.id != last.Id() {
          var d :| d in init && d.Backlog? && d.item == bl;
        }
      }
    }
  }

  /** A consistent specification set yields a backlog the planner may rely on. */
  lemma ConsistentYieldsValidBacklog(docs: seq<Document>)
    requires Consistent(docs)
    requires forall d :: d in docs && d.Backlog? ==> BacklogId(d.item.id)
    ensures ValidBacklog(Items(docs))
  {
    ItemsAreDocuments(docs);
    forall bl, dep | bl in Items(docs) && dep in bl.dependsOn ensures dep in Ids(Items(docs)) {
      var d :| d in docs && d.Backlog? && d.item == bl;
      assert IsItem(docs, dep);
      var q :| q in docs && q.Backlog? && q.Id() == dep;
      assert q.item in Items(docs);
    }
  }
}
