/** The inventory check over managed executor artifacts: a work list over secret references that ends on
    every store, cyclic or not, and visits exactly what the signer catalog reaches. */
module Inventory {
  import opened Options

  datatype Json = Scalar | Text(text: string) | Array(values: seq<Json>) | Object(members: seq<Member>)

  datatype Member = Member(name: string, value: Json)

  /** A UUID. */
  type RecordId = n: int | 0 <= n < 0x1_0000_0000_0000_0000_0000_0000_0000_0000

  /** A decrypted secret: a JSON document, or bytes that are not one. */
  datatype Secret = Opaque | Document(json: Json)

  datatype Snapshot = Frost(secretRef: string) | Plain(secretRef: string)

  datatype SecretFile = Kek | Record(id: RecordId)

  /** What the check can see. `parse` reads the record identifier out of a reference and `manifestName` the
      file name out of a manifest reference; `secrets` are the records that open and decrypt, `manifests`
      the manifests that can be read, with their document if they parse. The last four are the files and
      directories found by walking the two roots, directories relative to their root. */
  datatype Store = Store(
    parse: string -> Option<RecordId>, secrets: map<RecordId, Secret>,
    manifestName: string -> Option<string>, manifests: map<string, Option<Json>>,
    manifestFiles: set<string>, manifestDirectories: set<string>,
    secretFiles: set<SecretFile>, secretDirectories: set<string>)

  datatype Error =
    ManifestReferenceInvalid | ManifestMissing | ManifestMalformed | ReferenceInvalid | SecretMissing | InventoryDiffers

  // ---------------------------------------------------------------- references in a document

  const PREFIX: string := "encrypted-file://"

  /** All encrypted-file references in a document, in order. */
  function Refs(j: Json): seq<string> {
    match j
    case Scalar => []
    case Text(t) => if PREFIX <= t then [t] else []
    case Array(values) => RefsOfAll(values)
    case Object(members) => RefsOfMembers(members)
  }

  function RefsOfAll(values: seq<Json>): seq<string> {
    if values == [] then [] else RefsOfAll(values[..|values| - 1]) + Refs(values[|values| - 1])
  }

  function RefsOfMembers(members: seq<Member>): seq<string> {
    if members == [] then [] else RefsOfMembers(members[..|members| - 1]) + Refs(members[|members| - 1].value)
  }

  /** A text stands somewhere in a document. */
  ghost predicate Occurs(t: string, j: Json) {
    match j
    case Scalar => false
    case Text(u) => t == u
    case Array(values) => exists v <- values :: Occurs(t, v)
    case Object(members) => exists m <- members :: Occurs(t, m.value)
  }

  /** The references of a document are the texts in it with the prefix, however deep. */
  lemma {:induction false} RefsExact(j: Json, t: string)
    ensures t in Refs(j) <==> PREFIX <= t && Occurs(t, j)
  {
    match j
    case Scalar =>
    case Text(_) =>
    case Array(values) => RefsOfAllExact(values, t);
    case Object(members) => RefsOfMembersExact(members, t);
  }

  lemma {:induction false} RefsOfAllExact(values: seq<Json>, t: string)
    ensures t in RefsOfAll(values) <==> PREFIX <= t && exists v <- values :: Occurs(t, v)
  {
    if values != [] {
      var rest, last := values[..|values| - 1], values[|values| - 1];
      RefsOfAllExact(rest, t);
      RefsExact(last, t);
      assert values == rest + [last];
    }
  }

  lemma {:induction false} RefsOfMembersExact(members: seq<Member>, t: string)
    ensures t in RefsOfMembers(members) <==> PREFIX <= t && exists m <- members :: Occurs(t, m.value)
  {
    if members != [] {
      var rest, last := members[..|members| - 1], members[|members| - 1];
      RefsOfMembersExact(rest, t);
      RefsExact(last.value, t);
      assert members == rest + [last];
    }
  }

  /** `collect_encrypted_file_refs`: pushes onto the queue. */
  method CollectRefs(j: Json, pending: seq<string>) returns (r: seq<string>)
    ensures r == pending + Refs(j)
    decreases j
  {
    r := pending;
    match j
    case Scalar =>
    case Text(t) =>
      if PREFIX <= t {
        r := r + [t];
      }
    case Array(values) =>
      for i := 0 to |values|
        invariant r == pending + RefsOfAll(values[..i])
      {
        assert values[..i + 1][..i] == values[..i];
        r := CollectRefs(values[i], r);
      }
      assert values[..|values|] == values;
    case Object(members) =>
      for i := 0 to |members|
        invariant r == pending + RefsOfMembers(members[..i])
      {
        assert members[..i + 1][..i] == members[..i];
        r := CollectRefs(members[i].value, r);
      }
      assert members[..|members|] == members;
  }

  // ---------------------------------------------------------------- reachable references

  predicate Resolvable(x: Store, ref: string) {
    x.parse(ref).Some? && x.parse(ref).value in x.secrets
  }

  /** What a secret refers to. */
  function Children(x: Store, ref: string): seq<string> {
    if Resolvable(x, ref) && x.secrets[x.parse(ref).value].Document?
    then Refs(x.secrets[x.parse(ref).value].json)
    else []
  }

  /** One secret refers to another: the text stands in the document behind it. */
  ghost predicate RefersTo(x: Store, ref: string, child: string) {
    exists id, j :: x.parse(ref) == Some(id) && id in x.secrets && x.secrets[id] == Document(j)
      && PREFIX <= child && Occurs(child, j)
  }

  lemma ChildrenExact(x: Store, ref: string, child: string)
    ensures child in Children(x, ref) <==> RefersTo(x, ref, child)
  {
    hide Refs, Occurs;
    if Resolvable(x, ref) && x.secrets[x.parse(ref).value].Document? {
      RefsExact(x.secrets[x.parse(ref).value].json, child);
    }
  }

  predicate Path(x: Store, roots: seq<string>, path: seq<string>) {
    && path != [] && path[0] in roots
    && forall i :: 0 <= i < |path| - 1 ==> path[i + 1] in Children(x, path[i])
  }

  /** Some chain of references leads from the catalog to `ref`. */
  ghost predicate Reachable(x: Store, roots: seq<string>, ref: string) {
    exists path :: Path(x, roots, path) && path[|path| - 1] == ref
  }

  lemma ReachableRoot(x: Store, roots: seq<string>, ref: string)
    requires ref in roots
    ensures Reachable(x, roots, ref)
  {
    assert Path(x, roots, [ref]);
  }

  lemma ReachableChild(x: Store, roots: seq<string>, ref: string, child: string)
    requires Reachable(x, roots, ref) && child in Children(x, ref)
    ensures Reachable(x, roots, child)
  {
    var path :| Path(x, roots, path) && path[|path| - 1] == ref;
    var longer := path + [child];
    assert Path(x, roots, longer) && longer[|longer| - 1] == child;
  }

  /** A set that holds the roots and the children of its members holds all that is reachable. */
  lemma {:induction false} ClosedHolds(x: Store, roots: seq<string>, closed: set<string>, path: seq<string>)
    requires forall r <- roots :: r in closed
    requires forall r <- closed, c <- Children(x, r) :: c in closed
    requires Path(x, roots, path)
    ensures path[|path| - 1] in closed
  {
    if |path| > 1 {
      var shorter := path[..|path| - 1];
      assert Path(x, roots, shorter);
      ClosedHolds(x, roots, closed, shorter);
    }
  }

  /** Every reference the work list can ever hold. */
  ghost function Universe(x: Store, roots: seq<string>): set<string> {
    (set r <- roots) + (set id, r | id in x.secrets && x.secrets[id].Document? && r in Refs(x.secrets[id].json) :: r)
  }

  function RecordFiles(x: Store, refs: set<string>): set<SecretFile> {
    set r <- refs | x.parse(r).Some? :: Record(x.parse(r).value)
  }

  datatype Visit = Visited(refs: set<string>, files: set<SecretFile>) | Stopped(error: Error)

  ghost predicate AllResolvable(x: Store, roots: seq<string>) {
    forall ref :: Reachable(x, roots, ref) ==> Resolvable(x, ref)
  }

  ghost predicate Unresolvable(x: Store, roots: seq<string>, ref: string, parsed: bool) {
    Reachable(x, roots, ref) && !Resolvable(x, ref) && x.parse(ref).Some? == parsed
  }

  /** Some reachable reference is malformed, or well formed with no secret behind it. */
  ghost predicate Unresolved(x: Store, roots: seq<string>, parsed: bool) {
    exists ref :: Unresolvable(x, roots, ref, parsed)
  }

  /** The work list. It succeeds exactly when everything reachable resolves, and then it has visited exactly
      that; otherwise it stops at a reachable reference that is invalid or whose secret is missing. */
  method VisitSecrets(x: Store, roots: seq<string>) returns (v: Visit)
    ensures v.Visited? <==> AllResolvable(x, roots)
    ensures v.Visited? ==>
      (forall ref :: ref in v.refs <==> Reachable(x, roots, ref)) && v.files == {Kek} + RecordFiles(x, v.refs)
    ensures v.Stopped? ==>
      v.error in {ReferenceInvalid, SecretMissing} && Unresolved(x, roots, v.error == SecretMissing)
  {
    hide Refs, Path;
    var pending, visited, files := roots, {}, {Kek};
    forall r <- roots ensures Reachable(x, roots, r) { ReachableRoot(x, roots, r); }
    while pending != []
      invariant forall r <- pending :: r in Universe(x, roots) && Reachable(x, roots, r)
      invariant forall r <- visited :: r in Universe(x, roots) && Reachable(x, roots, r) && Resolvable(x, r)
      invariant forall r <- roots :: r in visited || r in pending
      invariant forall r <- visited, c <- Children(x, r) :: c in visited || c in pending
      invariant files == {Kek} + RecordFiles(x, visited)
      decreases Universe(x, roots) - visited, |pending|
    {
      var reference, rest := pending[0], pending[1..];
      assert pending == [reference] + rest;
      if reference in visited {
        pending := rest;
        continue;
      }
      if x.parse(reference).None? {
        assert Unresolvable(x, roots, reference, false);
        return Stopped(ReferenceInvalid);
      }
      var id := x.parse(reference).value;
      if id !in x.secrets {
        assert Unresolvable(x, roots, reference, true);
        return Stopped(SecretMissing);
      }
      var more := rest;
      if x.secrets[id].Document? {
        more := CollectRefs(x.secrets[id].json, rest);
      }
      assert more == rest + Children(x, reference);
      forall c <- Children(x, reference) ensures Reachable(x, roots, c) { ReachableChild(x, roots, reference, c); }
      files := files + {Record(id)};
      visited := visited + {reference};
      pending := more;
    }
    forall ref | Reachable(x, roots, ref) ensures ref in visited { ReachedAll(x, roots, visited, ref); }
    v := Visited(visited, files);
  }

  lemma ReachedAll(x: Store, roots: seq<string>, closed: set<string>, ref: string)
    requires forall r <- roots :: r in closed
    requires forall r <- closed, c <- Children(x, r) :: c in closed
    requires Reachable(x, roots, ref)
    ensures ref in closed
  {
    var path :| Path(x, roots, path) && path[|path| - 1] == ref;
    ClosedHolds(x, roots, closed, path);
  }

  // ---------------------------------------------------------------- the catalog

  predicate SnapshotOk(x: Store, s: Snapshot) {
    s.Frost? ==>
      && x.manifestName(s.secretRef).Some? && x.manifestName(s.secretRef).value in x.manifests
      && x.manifests[x.manifestName(s.secretRef).value].Some?
  }

  function SnapshotRefs(x: Store, s: Snapshot): seq<string> {
    if s.Plain? then [s.secretRef]
    else if SnapshotOk(x, s) then Refs(x.manifests[x.manifestName(s.secretRef).value].value)
    else []
  }

  function Roots(x: Store, snapshots: seq<Snapshot>): seq<string> {
    if snapshots == [] then [] else Roots(x, snapshots[..|snapshots| - 1]) + SnapshotRefs(x, snapshots[|snapshots| - 1])
  }

  predicate ManifestIs(x: Store, ref: string, name: string, j: Json) {
    x.manifestName(ref) == Some(name) && name in x.manifests && x.manifests[name] == Some(j)
  }

  /** The catalog names a secret: directly, or through a manifest in which the text stands. */
  ghost predicate CatalogNames(x: Store, s: Snapshot, ref: string) {
    || s == Plain(ref)
    || (s.Frost? && exists name, j :: ManifestIs(x, s.secretRef, name, j) && PREFIX <= ref && Occurs(ref, j))
  }

  lemma {:induction false} RootsExact(x: Store, snapshots: seq<Snapshot>, ref: string)
    ensures ref in Roots(x, snapshots) <==> exists s <- snapshots :: CatalogNames(x, s, ref)
  {
    hide Refs, Occurs, CatalogNames, SnapshotRefs;
    if snapshots != [] {
      var rest, last := snapshots[..|snapshots| - 1], snapshots[|snapshots| - 1];
      RootsExact(x, rest, ref);
      SnapshotExact(x, last, ref);
      assert snapshots == rest + [last];
    }
  }

  lemma SnapshotExact(x: Store, s: Snapshot, ref: string)
    ensures ref in SnapshotRefs(x, s) <==> CatalogNames(x, s, ref)
  {
    hide Refs, Occurs;
    if s.Frost? && SnapshotOk(x, s) {
      var name := x.manifestName(s.secretRef).value;
      RefsExact(x.manifests[name].value, ref);
      assert ManifestIs(x, s.secretRef, name, x.manifests[name].value);
    }
  }

  function ManifestFiles(x: Store, snapshots: seq<Snapshot>): set<string> {
    set s <- snapshots | s.Frost? && x.manifestName(s.secretRef).Some? :: x.manifestName(s.secretRef).value
  }

  /** The artifacts on disk are exactly those the catalog accounts for. */
  ghost predicate Accounted(x: Store, snapshots: seq<Snapshot>) {
    && (forall s <- snapshots :: SnapshotOk(x, s))
    && AllResolvable(x, Roots(x, snapshots))
    && x.manifestFiles == ManifestFiles(x, snapshots) && x.manifestDirectories == {""}
    && (forall f :: f in x.secretFiles <==> f == Kek || (f.Record? && Named(x, Roots(x, snapshots), f.id)))
    && x.secretDirectories == {"", "records"}
  }

  /** Some reachable reference names this record. */
  ghost predicate Named(x: Store, roots: seq<string>, id: RecordId) {
    exists ref :: Reachable(x, roots, ref) && x.parse(ref) == Some(id)
  }

  datatype Verdict = Accepted | Rejected(error: Error)

  lemma EmptyCatalog(x: Store, none: seq<Snapshot>)
    requires none == []
    ensures Roots(x, none) == [] && ManifestFiles(x, none) == {}
  {}

  lemma LongerCatalog(x: Store, snapshots: seq<Snapshot>, s: Snapshot)
    ensures Roots(x, snapshots + [s]) == Roots(x, snapshots) + SnapshotRefs(x, s)
    ensures ManifestFiles(x, snapshots + [s]) == ManifestFiles(x, snapshots) + ManifestFiles(x, [s])
    ensures ManifestFiles(x, [s]) ==
      if s.Frost? && x.manifestName(s.secretRef).Some? then {x.manifestName(s.secretRef).value} else {}
  {
    hide Refs;
    assert (snapshots + [s])[..|snapshots|] == snapshots;
  }

  method ReadCatalog(x: Store, snapshots: seq<Snapshot>)
    returns (error: Option<Error>, roots: seq<string>, files: set<string>)
    ensures error.None? <==> forall s <- snapshots :: SnapshotOk(x, s)
    ensures error.None? ==> roots == Roots(x, snapshots) && files == ManifestFiles(x, snapshots)
  {
    hide Refs, Roots, ManifestFiles;
    roots, files := [], {};
    EmptyCatalog(x, snapshots[..0]);
    for i := 0 to |snapshots|
      invariant forall s <- snapshots[..i] :: SnapshotOk(x, s)
      invariant roots == Roots(x, snapshots[..i]) && files == ManifestFiles(x, snapshots[..i])
    {
      var s := snapshots[i];
      assert snapshots[..i + 1] == snapshots[..i] + [s] && s in snapshots;
      LongerCatalog(x, snapshots[..i], s);
      if s.Frost? {
        var name := x.manifestName(s.secretRef);
        if name.None? {
          return Some(ManifestReferenceInvalid), roots, files;
        }
        if name.value !in x.manifests {
          return Some(ManifestMissing), roots, files;
        }
        var document := x.manifests[name.value];
        if document.None? {
          return Some(ManifestMalformed), roots, files;
        }
        files := files + {name.value};
        roots := CollectRefs(document.value, roots);
      } else {
        roots := roots + [s.secretRef];
      }
    }
    assert snapshots[..|snapshots|] == snapshots;
    error := None;
  }

  /** `validate_managed_artifact_inventory` accepts exactly the accounted stores. */
  method ValidateInventory(x: Store, snapshots: seq<Snapshot>) returns (v: Verdict)
    ensures v == Accepted <==> Accounted(x, snapshots)
  {
    hide Refs, Path, Reachable, Children, ManifestFiles;
    var error, roots, files := ReadCatalog(x, snapshots);
    if error.Some? {
      return Rejected(error.value);
    }
    var visit := VisitSecrets(x, roots);
    if visit.Stopped? {
      return Rejected(visit.error);
    }
    FilesNamed(x, roots, visit.refs);
    if x.manifestFiles != files || x.manifestDirectories != {""} || x.secretFiles != visit.files
       || x.secretDirectories != {"", "records"}
    {
      return Rejected(InventoryDiffers);
    }
    v := Accepted;
  }

  lemma FilesNamed(x: Store, roots: seq<string>, refs: set<string>)
    requires forall ref :: ref in refs <==> Reachable(x, roots, ref)
    ensures forall f :: f in {Kek} + RecordFiles(x, refs) <==> f == Kek || (f.Record? && Named(x, roots, f.id))
  {
    hide Reachable;
    forall f ensures f in {Kek} + RecordFiles(x, refs) <==> f == Kek || (f.Record? && Named(x, roots, f.id)) {
      if f in RecordFiles(x, refs) {
        var ref :| ref in refs && x.parse(ref).Some? && f == Record(x.parse(ref).value);
        assert Reachable(x, roots, ref);
      }
      if f.Record? && Named(x, roots, f.id) {
        var ref :| Reachable(x, roots, ref) && x.parse(ref) == Some(f.id);
        assert ref in refs;
      }
    }
  }
}
