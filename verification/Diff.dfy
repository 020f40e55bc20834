/** The structural diff of two parsed documents: anchors first, then unique moves of equal text. */
module Diff {
  import opened Ordering

  // Of a parsed block, the diff reads the anchor and the hash of the text.
  datatype Block = Block(anchor: string, textHash: string)

  datatype Modified = Modified(anchor: string, beforeHash: string, afterHash: string)

  datatype Moved = Moved(textHash: string, fromAnchor: string, toAnchor: string)

  datatype StructuralDiff = StructuralDiff(added: seq<Block>, removed: seq<Block>, modified: seq<Modified>,
                                           moved: seq<Moved>)

  type Doc = map<string, string>     // anchor -> hash

  // A later block with the same anchor replaces an earlier one.
  function ByAnchor(blocks: seq<Block>): Doc {
    if blocks == [] then map[]
    else
      var last := blocks[|blocks| - 1];
      ByAnchor(blocks[..|blocks| - 1])[last.anchor := last.textHash]
  }

  function Unchanged(before: Doc, after: Doc): set<string> {
    set a | a in before && a in after && before[a] == after[a]
  }

  function Holders(doc: Doc, hash: string): set<string> {
    set a | a in doc && doc[a] == hash
  }

  // Hashes that occur once on each side.
  function Movable(before: Doc, after: Doc): set<string> {
    set a | a in before && |Holders(before, before[a])| == 1 && |Holders(after, before[a])| == 1 :: before[a]
  }

  ghost function AnchorOf(doc: Doc, hash: string): string
    requires Holders(doc, hash) != {}
  {
    var a :| a in Holders(doc, hash); a
  }

  lemma MovableHeld(before: Doc, after: Doc, hash: string)
    requires hash in Movable(before, after)
    ensures |Holders(before, hash)| == 1 && |Holders(after, hash)| == 1
    ensures Holders(before, hash) == {AnchorOf(before, hash)} && Holders(after, hash) == {AnchorOf(after, hash)}
  {
    OneHolder(before, hash);
    OneHolder(after, hash);
  }

  lemma OneHolder(doc: Doc, hash: string)
    requires |Holders(doc, hash)| == 1
    ensures Holders(doc, hash) == {AnchorOf(doc, hash)}
  {
    var a := AnchorOf(doc, hash);
    var rest := Holders(doc, hash) - {a};
    assert |rest| == 0;
  }

  ghost function MovedHashes(before: Doc, after: Doc): set<string> {
    set h | h in Movable(before, after) && Holders(before, h) != {} && Holders(after, h) != {}
            && AnchorOf(before, h) != AnchorOf(after, h)
  }

  // The blocks of one side that no move accounts for.
  ghost function Remaining(doc: Doc, moved: set<string>): Doc {
    map a | a in doc && doc[a] !in moved :: doc[a]
  }

  // The references to these anchors, in order.
  ghost function Refs(doc: Doc, anchors: set<string>): seq<Block>
    requires anchors <= doc.Keys
  {
    var keys := Sorted(anchors);
    seq(|keys|, i requires 0 <= i < |keys| => assert keys[i] in Elements(keys); Block(keys[i], doc[keys[i]]))
  }

  ghost function ModifiedAt(before: Doc, after: Doc, anchors: set<string>): seq<Modified>
    requires anchors <= before.Keys * after.Keys
  {
    var keys := Sorted(anchors);
    seq(|keys|, i requires 0 <= i < |keys| =>
      assert keys[i] in Elements(keys); Modified(keys[i], before[keys[i]], after[keys[i]]))
  }

  ghost function Moves(before: Doc, after: Doc): seq<Moved> {
    var hashes := Sorted(MovedHashes(before, after));
    seq(|hashes|, i requires 0 <= i < |hashes| =>
      assert hashes[i] in Elements(hashes);
      Moved(hashes[i], AnchorOf(before, hashes[i]), AnchorOf(after, hashes[i])))
  }

  // The two sides without the anchors whose text is unchanged.
  function OldSide(before: Doc, after: Doc): Doc {
    before - Unchanged(before, after)
  }

  function NewSide(before: Doc, after: Doc): Doc {
    after - Unchanged(before, after)
  }

  ghost function DiffDocs(before: Doc, after: Doc): StructuralDiff {
    DiffSides(OldSide(before, after), NewSide(before, after))
  }

  ghost function DiffSides(from: Doc, to: Doc): StructuralDiff {
    var restOld, restNew := Remaining(from, MovedHashes(from, to)), Remaining(to, MovedHashes(from, to));
    var both := restOld.Keys * restNew.Keys;
    StructuralDiff(
      Refs(restNew, restNew.Keys - both),
      Refs(restOld, restOld.Keys - both),
      ModifiedAt(restOld, restNew, both),
      Moves(from, to))
  }

  ghost function Compare(before: seq<Block>, after: seq<Block>): StructuralDiff {
    DiffDocs(ByAnchor(before), ByAnchor(after))
  }

  // ---- The diff is a patch ----

  // Take the removed and the moved-from anchors out, then write the modified, moved and added ones.
  function Patch(doc: Doc, d: StructuralDiff): Doc {
    var cleared := doc - (set r | r in d.removed :: r.anchor) - (set m | m in d.moved :: m.fromAnchor);
    WriteAdded(WriteMoved(WriteModified(cleared, d.modified), d.moved), d.added)
  }

  function WriteAdded(doc: Doc, refs: seq<Block>): Doc
    decreases |refs|
  {
    if refs == [] then doc else WriteAdded(doc[refs[0].anchor := refs[0].textHash], refs[1..])
  }

  function WriteModified(doc: Doc, refs: seq<Modified>): Doc
    decreases |refs|
  {
    if refs == [] then doc else WriteModified(doc[refs[0].anchor := refs[0].afterHash], refs[1..])
  }

  function WriteMoved(doc: Doc, refs: seq<Moved>): Doc
    decreases |refs|
  {
    if refs == [] then doc else WriteMoved(doc[refs[0].toAnchor := refs[0].textHash], refs[1..])
  }

  // Written over with the values of a target, at these anchors.
  ghost predicate Overlaid(doc: Doc, next: Doc, anchors: set<string>, target: Doc) {
    && anchors <= target.Keys && next.Keys == doc.Keys + anchors
    && forall a :: a in next ==> next[a] == if a in anchors then target[a] else doc[a]
  }

  lemma {:induction false} AddedOverlays(doc: Doc, refs: seq<Block>, target: Doc)
    requires forall r :: r in refs ==> r.anchor in target && target[r.anchor] == r.textHash
    ensures Overlaid(doc, WriteAdded(doc, refs), set r | r in refs :: r.anchor, target)
    decreases |refs|
  {
    if refs != [] {
      assert refs[0] in refs && forall r :: r in refs <==> r == refs[0] || r in refs[1..];
      AddedOverlays(doc[refs[0].anchor := refs[0].textHash], refs[1..], target);
    }
  }

  lemma {:induction false} ModifiedOverlays(doc: Doc, refs: seq<Modified>, target: Doc)
    requires forall r :: r in refs ==> r.anchor in target && target[r.anchor] == r.afterHash
    ensures Overlaid(doc, WriteModified(doc, refs), set r | r in refs :: r.anchor, target)
    decreases |refs|
  {
    if refs != [] {
      assert refs[0] in refs && forall r :: r in refs <==> r == refs[0] || r in refs[1..];
      ModifiedOverlays(doc[refs[0].anchor := refs[0].afterHash], refs[1..], target);
    }
  }

  lemma {:induction false} MovedOverlays(doc: Doc, refs: seq<Moved>, target: Doc)
    requires forall r :: r in refs ==> r.toAnchor in target && target[r.toAnchor] == r.textHash
    ensures Overlaid(doc, WriteMoved(doc, refs), set r | r in refs :: r.toAnchor, target)
    decreases |refs|
  {
    if refs != [] {
      assert refs[0] in refs && forall r :: r in refs <==> r == refs[0] || r in refs[1..];
      MovedOverlays(doc[refs[0].toAnchor := refs[0].textHash], refs[1..], target);
    }
  }

  // ---- What the lists hold ----

  lemma RefsHold(doc: Doc, anchors: set<string>)
    requires anchors <= doc.Keys
    ensures |Refs(doc, anchors)| == |anchors|
    ensures forall r :: r in Refs(doc, anchors) <==> r.anchor in anchors && r.textHash == doc[r.anchor]
    ensures (set r | r in Refs(doc, anchors) :: r.anchor) == anchors
  {
    var keys, refs := Sorted(anchors), Refs(doc, anchors);
    forall a | a in anchors ensures Block(a, doc[a]) in refs {
      assert a in Elements(keys);
      var i :| 0 <= i < |keys| && keys[i] == a;
      assert refs[i] == Block(a, doc[a]);
    }
    forall i | 0 <= i < |refs| ensures refs[i].anchor in anchors {
      assert keys[i] in Elements(keys);
    }
  }

  lemma ModifiedHold(before: Doc, after: Doc, anchors: set<string>)
    requires anchors <= before.Keys * after.Keys
    ensures |ModifiedAt(before, after, anchors)| == |anchors|
    ensures forall r :: r in ModifiedAt(before, after, anchors) ==>
      r.anchor in anchors && r.beforeHash == before[r.anchor] && r.afterHash == after[r.anchor]
    ensures (set r | r in ModifiedAt(before, after, anchors) :: r.anchor) == anchors
  {
    var keys, refs := Sorted(anchors), ModifiedAt(before, after, anchors);
    forall a | a in anchors ensures Modified(a, before[a], after[a]) in refs {
      assert a in Elements(keys);
      var i :| 0 <= i < |keys| && keys[i] == a;
      assert refs[i] == Modified(a, before[a], after[a]);
    }
    forall i | 0 <= i < |refs| ensures refs[i].anchor in anchors {
      assert keys[i] in Elements(keys);
    }
  }

  // Each move takes the one holder of its hash on either side.
  lemma MoveIsUnique(from: Doc, to: Doc, m: Moved)
    requires m in Moves(from, to)
    ensures m.textHash in MovedHashes(from, to)
    ensures Holders(from, m.textHash) == {m.fromAnchor} && Holders(to, m.textHash) == {m.toAnchor}
  {
    var hashes, moves := Sorted(MovedHashes(from, to)), Moves(from, to);
    var i :| 0 <= i < |moves| && moves[i] == m;
    assert hashes[i] in Elements(hashes);
    MovableHeld(from, to, hashes[i]);
  }

  lemma MoveOf(from: Doc, to: Doc, h: string) returns (m: Moved)
    requires h in MovedHashes(from, to)
    ensures m in Moves(from, to) && m.textHash == h
  {
    var hashes, moves := Sorted(MovedHashes(from, to)), Moves(from, to);
    assert h in Elements(hashes);
    var i :| 0 <= i < |hashes| && hashes[i] == h;
    m := moves[i];
  }

  lemma MovesCount(from: Doc, to: Doc)
    ensures |Moves(from, to)| == |MovedHashes(from, to)|
  {
  }

  // The anchors whose text moved.
  function Shifted(doc: Doc, moved: set<string>): set<string> {
    set a | a in doc && doc[a] in moved
  }

  lemma MovedAnchors(from: Doc, to: Doc)
    ensures (set m | m in Moves(from, to) :: m.fromAnchor) == Shifted(from, MovedHashes(from, to))
    ensures (set m | m in Moves(from, to) :: m.toAnchor) == Shifted(to, MovedHashes(from, to))
  {
    var moves, moved := Moves(from, to), MovedHashes(from, to);
    forall m | m in moves ensures m.fromAnchor in Shifted(from, moved) && m.toAnchor in Shifted(to, moved) {
      MoveIsUnique(from, to, m);
      assert m.fromAnchor in Holders(from, m.textHash) && m.toAnchor in Holders(to, m.textHash);
    }
    forall a | a in Shifted(from, moved) ensures a in (set m | m in moves :: m.fromAnchor) {
      var m := MoveOf(from, to, from[a]);
      MoveIsUnique(from, to, m);
      assert a in Holders(from, m.textHash);
    }
    forall a | a in Shifted(to, moved) ensures a in (set m | m in moves :: m.toAnchor) {
      var m := MoveOf(from, to, to[a]);
      MoveIsUnique(from, to, m);
      assert a in Holders(to, m.textHash);
    }
  }

  // Patching the older document with the diff gives the newer one.
  lemma DiffIsAPatch(before: Doc, after: Doc)
    ensures Patch(before, DiffDocs(before, after)) == after
  {
    var from, to := OldSide(before, after), NewSide(before, after);
    var moved := MovedHashes(from, to);
    var restOld, restNew := Remaining(from, moved), Remaining(to, moved);
    var both := restOld.Keys * restNew.Keys;
    var d := DiffDocs(before, after);
    var fromAnchors, toAnchors := Shifted(from, moved), Shifted(to, moved);
    RefsHold(restOld, restOld.Keys - both);
    RefsHold(restNew, restNew.Keys - both);
    ModifiedHold(restOld, restNew, both);
    MovedAnchors(from, to);
    forall m | m in d.moved ensures m.toAnchor in after && after[m.toAnchor] == m.textHash {
      MoveIsUnique(from, to, m);
      assert m.toAnchor in Holders(to, m.textHash);
    }
    var cleared := before - (restOld.Keys - both) - fromAnchors;
    ClearedKeys(before, after);
    var one := WriteModified(cleared, d.modified);
    ModifiedOverlays(cleared, d.modified, after);
    var two := WriteMoved(one, d.moved);
    MovedOverlays(one, d.moved, after);
    AddedOverlays(two, d.added, after);
    OverlaidThrice(before, after, cleared, one, two, WriteAdded(two, d.added), both, toAnchors, restNew.Keys - both);
  }

  // What is left to patch: the unchanged anchors, and those to be rewritten.
  lemma ClearedKeys(before: Doc, after: Doc)
    ensures
      var from, to := OldSide(before, after), NewSide(before, after);
      var moved := MovedHashes(from, to);
      var restOld, restNew := Remaining(from, moved), Remaining(to, moved);
      var both := restOld.Keys * restNew.Keys;
      && (before - (restOld.Keys - both) - Shifted(from, moved)).Keys == Unchanged(before, after) + both
      && after.Keys == Unchanged(before, after) + both + Shifted(to, moved) + (restNew.Keys - both)
  {
  }

  lemma OverlaidThrice(before: Doc, after: Doc, cleared: Doc, one: Doc, two: Doc, three: Doc,
                       a: set<string>, b: set<string>, c: set<string>)
    requires cleared.Keys == Unchanged(before, after) + a
    requires forall k :: k in cleared ==> k in before && cleared[k] == before[k]
    requires Overlaid(cleared, one, a, after) && Overlaid(one, two, b, after) && Overlaid(two, three, c, after)
    requires after.Keys == Unchanged(before, after) + a + b + c
    ensures three == after
  {
  }

  // ---- Counts, order and direction ----

  lemma {:induction false} ShiftedCount(doc: Doc, moved: set<string>)
    requires forall h :: h in moved ==> |Holders(doc, h)| == 1
    ensures |Shifted(doc, moved)| == |moved|
    decreases moved
  {
    if moved == {} {
      assert Shifted(doc, moved) == {};
    } else {
      var h :| h in moved;
      OneHolder(doc, h);
      ShiftedCount(doc, moved - {h});
      assert Shifted(doc, moved) == Shifted(doc, moved - {h}) + Holders(doc, h);
      assert Shifted(doc, moved - {h}) !! Holders(doc, h);
    }
  }

  // Every anchor of either side is counted exactly once.
  lemma CountsAreConserved(before: Doc, after: Doc)
    ensures
      var d := DiffDocs(before, after);
      && |before| == |Unchanged(before, after)| + |d.removed| + |d.modified| + |d.moved|
      && |after| == |Unchanged(before, after)| + |d.added| + |d.modified| + |d.moved|
  {
    var from, to := OldSide(before, after), NewSide(before, after);
    var moved := MovedHashes(from, to);
    var restOld, restNew := Remaining(from, moved), Remaining(to, moved);
    var both := restOld.Keys * restNew.Keys;
    RefsHold(restOld, restOld.Keys - both);
    RefsHold(restNew, restNew.Keys - both);
    ModifiedHold(restOld, restNew, both);
    MovesCount(from, to);
    forall h | h in moved {
      MovableHeld(from, to, h);
    }
    ShiftedCount(from, moved);
    ShiftedCount(to, moved);
    CountSide(before, Unchanged(before, after), moved, restOld, both);
    CountSide(after, Unchanged(before, after), moved, restNew, both);
  }

  lemma CountSide(doc: Doc, kept: set<string>, moved: set<string>, rest: Doc, both: set<string>)
    requires kept <= doc.Keys && rest == Remaining(doc - kept, moved) && both <= rest.Keys
    ensures |doc| == |kept| + |rest.Keys - both| + |both| + |Shifted(doc - kept, moved)|
  {
    var shifted := Shifted(doc - kept, moved);
    assert rest.Keys == doc.Keys - kept - shifted;
    FourParts(doc.Keys, kept, rest.Keys - both, both, shifted);
    assert |doc| == |doc.Keys|;
  }

  lemma FourParts(all: set<string>, a: set<string>, b: set<string>, c: set<string>, d: set<string>)
    requires a <= all && d <= all && a !! d && b + c == all - a - d && b !! c
    ensures |all| == |a| + |b| + |c| + |d|
  {
    assert all == a + (b + c) + d;
  }

  ghost predicate UniqueAnchors(blocks: seq<Block>) {
    forall i, k :: 0 <= i < k < |blocks| ==> blocks[i].anchor != blocks[k].anchor
  }

  lemma {:induction false} ByAnchorHolds(blocks: seq<Block>)
    requires UniqueAnchors(blocks)
    ensures |ByAnchor(blocks)| == |blocks|
    ensures ByAnchor(blocks).Keys == set b | b in blocks :: b.anchor
    ensures forall b :: b in blocks ==> ByAnchor(blocks)[b.anchor] == b.textHash
  {
    if blocks != [] {
      var init, last := blocks[..|blocks| - 1], blocks[|blocks| - 1];
      ByAnchorHolds(init);
      assert forall b :: b in blocks <==> b in init || b == last;
      assert last.anchor !in ByAnchor(init);
      assert |ByAnchor(init)[last.anchor := last.textHash].Keys| == |ByAnchor(init).Keys + {last.anchor}|;
    }
  }

  // With unique anchors, listing the same blocks in another order gives the same diff.
  lemma OrderDoesNotMatter(before: seq<Block>, after: seq<Block>, shuffledBefore: seq<Block>, shuffledAfter: seq<Block>)
    requires UniqueAnchors(before) && UniqueAnchors(after)
    requires multiset(before) == multiset(shuffledBefore) && multiset(after) == multiset(shuffledAfter)
    ensures Compare(shuffledBefore, shuffledAfter) == Compare(before, after)
  {
    SameDocument(before, shuffledBefore);
    SameDocument(after, shuffledAfter);
  }

  lemma SameDocument(blocks: seq<Block>, shuffled: seq<Block>)
    requires UniqueAnchors(blocks) && multiset(blocks) == multiset(shuffled)
    ensures ByAnchor(shuffled) == ByAnchor(blocks)
  {
    StillUnique(blocks, shuffled);
    PartOfDocument(blocks, shuffled);
    PartOfDocument(shuffled, blocks);
  }

  lemma PartOfDocument(blocks: seq<Block>, shuffled: seq<Block>)
    requires UniqueAnchors(blocks) && UniqueAnchors(shuffled) && multiset(blocks) == multiset(shuffled)
    ensures forall a :: a in ByAnchor(blocks) ==>
              a in ByAnchor(shuffled) && ByAnchor(shuffled)[a] == ByAnchor(blocks)[a]
  {
    ByAnchorHolds(blocks);
    ByAnchorHolds(shuffled);
    forall a | a in ByAnchor(blocks) ensures a in ByAnchor(shuffled) && ByAnchor(shuffled)[a] == ByAnchor(blocks)[a] {
      var b :| b in blocks && b.anchor == a;
      assert b in multiset(shuffled);
    }
  }

  lemma StillUnique(blocks: seq<Block>, shuffled: seq<Block>)
    requires UniqueAnchors(blocks) && multiset(blocks) == multiset(shuffled)
    ensures UniqueAnchors(shuffled)
  {
    forall i, k | 0 <= i < k < |shuffled| ensures shuffled[i].anchor != shuffled[k].anchor {
      var b, c := shuffled[i], shuffled[k];
      assert b in multiset(blocks) && c in multiset(blocks);
      if b == c {
        TwiceInMultiset(shuffled, i, k);
        OnceWhenUnique(blocks, b);
      } else {
        var x :| 0 <= x < |blocks| && blocks[x] == b;
        var y :| 0 <= y < |blocks| && blocks[y] == c;
        assert x != y;
      }
    }
  }

  lemma TwiceInMultiset(blocks: seq<Block>, i: nat, k: nat)
    requires i < k < |blocks| && blocks[i] == blocks[k]
    ensures multiset(blocks)[blocks[i]] >= 2
  {
    assert blocks == blocks[..i] + [blocks[i]] + blocks[i + 1..k] + [blocks[k]] + blocks[k + 1..];
  }

  lemma {:induction false} OnceWhenUnique(blocks: seq<Block>, b: Block)
    requires UniqueAnchors(blocks)
    ensures multiset(blocks)[b] <= 1
  {
    if blocks != [] {
      var init, last := blocks[..|blocks| - 1], blocks[|blocks| - 1];
      OnceWhenUnique(init, b);
      assert blocks == init + [last];
      if b == last {
        assert b !in init;
      }
    }
  }

  function Mirrored(d: StructuralDiff): StructuralDiff {
    StructuralDiff(
      d.removed,
      d.added,
      seq(|d.modified|, i requires 0 <= i < |d.modified| =>
        Modified(d.modified[i].anchor, d.modified[i].afterHash, d.modified[i].beforeHash)),
      seq(|d.moved|, i requires 0 <= i < |d.moved| =>
        Moved(d.moved[i].textHash, d.moved[i].toAnchor, d.moved[i].fromAnchor)))
  }

  // The diff the other way round is the mirror image.
  lemma BackwardsIsMirrored(before: Doc, after: Doc)
    ensures DiffDocs(after, before) == Mirrored(DiffDocs(before, after))
  {
    assert Unchanged(after, before) == Unchanged(before, after);
    SidesMirrored(OldSide(before, after), NewSide(before, after));
  }

  lemma SidesMirrored(from: Doc, to: Doc)
    ensures DiffSides(to, from) == Mirrored(DiffSides(from, to))
  {
    SameMovedHashes(from, to);
    var moved := MovedHashes(from, to);
    var restOld, restNew := Remaining(from, moved), Remaining(to, moved);
    var both := restOld.Keys * restNew.Keys;
    assert restNew.Keys * restOld.Keys == both;
    ModifiedMirrored(restOld, restNew, both, DiffSides(from, to));
    MovesMirrored(from, to, DiffSides(from, to));
  }

  lemma ModifiedMirrored(before: Doc, after: Doc, anchors: set<string>, d: StructuralDiff)
    requires anchors <= before.Keys * after.Keys && d.modified == ModifiedAt(before, after, anchors)
    ensures ModifiedAt(after, before, anchors) == Mirrored(d).modified
  {
  }

  lemma MovesMirrored(from: Doc, to: Doc, d: StructuralDiff)
    requires MovedHashes(to, from) == MovedHashes(from, to) && d.moved == Moves(from, to)
    ensures Moves(to, from) == Mirrored(d).moved
  {
  }

  lemma SameMovedHashes(from: Doc, to: Doc)
    ensures MovedHashes(to, from) == MovedHashes(from, to)
  {
    SameMovable(from, to);
    SameMovable(to, from);
  }

  lemma SameMovable(from: Doc, to: Doc)
    ensures Movable(from, to) <= Movable(to, from)
  {
    forall h | h in Movable(from, to) ensures h in Movable(to, from) {
      MovableHeld(from, to, h);
      assert AnchorOf(to, h) in Holders(to, h);
    }
  }

  // Patching back: the mirrored diff undoes the diff.
  lemma MirroredDiffUndoes(before: Doc, after: Doc)
    ensures Patch(Patch(before, DiffDocs(before, after)), Mirrored(DiffDocs(before, after))) == before
  {
    DiffIsAPatch(before, after);
    BackwardsIsMirrored(before, after);
    DiffIsAPatch(after, before);
  }
}
