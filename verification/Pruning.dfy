/** Removing members: on values, and on the trees their text is written from. */
module Pruning {
  import opened Lexical
  import opened Syntax
  import opened Printing
  import opened Options
  import opened Values

  datatype Key = Named(name: Name) | Index(i: nat)

  type Path = seq<Key>

  function KeyOf(kind: Kind, name: Name, idx: nat): Key {
    if kind.Arr? then Index(idx) else Named(name)
  }

  /* ---- values ---- */

  // The value without the members whose paths are in removed.
  function Prune(value: Json, path: Path, removed: set<Path>): Json {
    match value
    case Container(kind, items) => Container(kind, PruneItems(items, kind, 0, path, removed))
    case _ => value
  }

  function PruneItems(items: Items, kind: Kind, idx: nat, path: Path, removed: set<Path>): Items {
    match items
    case Nil => Nil
    case Item(name, value, rest) =>
      var p := path + [KeyOf(kind, name, idx)];
      var tail := PruneItems(rest, kind, idx + 1, path, removed);
      if p in removed then tail else Item(name, Prune(value, p, removed), tail)
  }

  lemma {:induction false} PruneKeepsUnique(value: Json, path: Path, removed: set<Path>)
    requires Unique(value)
    ensures Unique(Prune(value, path, removed))
  {
    if value.Container? { PruneKeepsUniqueItems(value.items, value.kind, 0, path, removed); }
  }

  lemma {:induction false} PruneKeepsUniqueItems(items: Items, kind: Kind, idx: nat, path: Path, removed: set<Path>)
    requires UniqueItems(items, kind)
    ensures UniqueItems(PruneItems(items, kind, idx, path, removed), kind)
    ensures forall n :: HasName(PruneItems(items, kind, idx, path, removed), n) ==> HasName(items, n)
  {
    if items.Item? {
      PruneKeepsUnique(items.value, path + [KeyOf(kind, items.name, idx)], removed);
      PruneKeepsUniqueItems(items.rest, kind, idx + 1, path, removed);
    }
  }

  /* ---- trees ---- */

  predicate AllKept(body: Body, kind: Kind, idx: nat, path: Path, removed: set<Path>) {
    body.More? ==>
      path + [KeyOf(kind, NameOf(body.head), idx)] !in removed
      && AllKept(body.next, kind, idx + 1, path, removed)
  }

  predicate AnyKept(body: Body, kind: Kind, idx: nat, path: Path, removed: set<Path>) {
    body.More? &&
    (path + [KeyOf(kind, NameOf(body.head), idx)] !in removed
     || AnyKept(body.next, kind, idx + 1, path, removed))
  }

  // The tree without the removed members. A container that loses a member keeps all the gaps between its
  // members and one comma between the members that stay; other containers keep even a stray comma.
  function Cut(node: Node, path: Path, removed: set<Path>): Node {
    match node
    case Atom(_) => node
    case Box(kind, body) =>
      Box(kind, CutBody(body, kind, 0, path, removed, AllKept(body, kind, 0, path, removed), ""))
  }

  function CutBody(body: Body, kind: Kind, idx: nat, path: Path, removed: set<Path>, whole: bool, gap: string): Body {
    match body
    case Done(before, stray, after) =>
      if whole then Done(gap + before, stray, after) else Done(gap + before + after, false, "")
    case More(pre, head, val, post, next) =>
      var p := path + [KeyOf(kind, NameOf(head), idx)];
      if p in removed then CutBody(next, kind, idx + 1, path, removed, whole, gap + pre + post)
      else Join(gap + pre, head, Cut(val, p, removed), post, CutBody(next, kind, idx + 1, path, removed, whole, ""))
  }

  // A member in front of a body; the gap after a last member belongs to the end of the container.
  function Join(pre: string, head: Head, val: Node, post: string, next: Body): Body {
    if next.Done? then More(pre, head, val, "", Done(post + next.before, next.stray, next.after))
    else More(pre, head, val, post, next)
  }

  lemma {:induction false} CutMeans(node: Node, path: Path, removed: set<Path>)
    ensures Meaning(Cut(node, path, removed)) == Prune(Meaning(node), path, removed)
  {
    match node
    case Atom(_) =>
    case Box(kind, body) =>
      CutBodyMeans(body, kind, 0, path, removed, AllKept(body, kind, 0, path, removed), "");
  }

  lemma {:induction false} CutBodyMeans(body: Body, kind: Kind, idx: nat, path: Path, removed: set<Path>, whole: bool, gap: string)
    ensures ItemsOf(CutBody(body, kind, idx, path, removed, whole, gap))
      == PruneItems(ItemsOf(body), kind, idx, path, removed)
  {
    match body
    case Done(_, _, _) =>
    case More(pre, head, val, post, next) =>
      var p := path + [KeyOf(kind, NameOf(head), idx)];
      CutMeans(val, p, removed);
      CutBodyMeans(next, kind, idx + 1, path, removed, whole, gap + pre + post);
      CutBodyMeans(next, kind, idx + 1, path, removed, whole, "");
  }

  lemma {:induction false} CutIsWellFormed(node: Node, path: Path, removed: set<Path>)
    requires WellFormed(node, Jsonc)
    ensures WellFormed(Cut(node, path, removed), Jsonc)
  {
    match node
    case Atom(_) =>
    case Box(kind, body) =>
      EmptyIsGap(Jsonc);
      CutBodyIsWellFormed(body, kind, 0, path, removed, AllKept(body, kind, 0, path, removed), "");
  }

  lemma {:induction false} CutBodyIsWellFormed(body: Body, kind: Kind, idx: nat, path: Path, removed: set<Path>, whole: bool, gap: string)
    requires WellBodied(body, kind, Jsonc) && IsGap(gap, Jsonc)
    ensures WellBodied(CutBody(body, kind, idx, path, removed, whole, gap), kind, Jsonc)
  {
    hide IsGap, WellHeaded, WellFormed;
    EmptyIsGap(Jsonc);
    match body
    case Done(before, stray, after) =>
      GapConcat(gap, before, Jsonc);
      GapConcat(gap + before, after, Jsonc);
    case More(pre, head, val, post, next) =>
      GapConcat(gap, pre, Jsonc);
      GapConcat(gap + pre, post, Jsonc);
      var p := path + [KeyOf(kind, NameOf(head), idx)];
      if p in removed {
        CutBodyIsWellFormed(next, kind, idx + 1, path, removed, whole, gap + pre + post);
      } else {
        CutIsWellFormed(val, p, removed);
        CutBodyIsWellFormed(next, kind, idx + 1, path, removed, whole, "");
        var rest := CutBody(next, kind, idx + 1, path, removed, whole, "");
        if rest.Done? { GapConcat(post, rest.before, Jsonc); }
      }
  }

  function CutDocument(doc: Document, removed: set<Path>): Document {
    doc.(root := Cut(doc.root, [], removed))
  }

  // Cutting members out of a loadable document gives a loadable document, whose value is the pruned one.
  lemma {:induction false} LoadOfCut(doc: Document, removed: set<Path>)
    requires WellDocumented(doc, Jsonc) && Unique(Meaning(doc.root))
    ensures LoadJson(DocumentText(CutDocument(doc, removed))) == Some(Prune(Meaning(doc.root), [], removed))
  {
    hide LoadJson, WellFormed, Unique, Meaning, Prune;
    CutMeans(doc.root, [], removed);
    CutIsWellFormed(doc.root, [], removed);
    PruneKeepsUnique(Meaning(doc.root), [], removed);
    LoadOfText(CutDocument(doc, removed));
  }
}
