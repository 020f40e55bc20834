/** What the diff reports about each block, told from the two documents alone. */
module DiffLaws {
  import opened Ordering
  import opened Diff

  // The anchor is new, or its text is not the one that it has on the other side.
  predicate Changed(doc: Doc, other: Doc, a: string) {
    a in doc && !(a in other && other[a] == doc[a])
  }

  // Of the changed anchors of a side, this one alone has the text.
  ghost predicate OnlyAt(doc: Doc, other: Doc, h: string, a: string) {
    && Changed(doc, other, a) && doc[a] == h
    && forall b :: Changed(doc, other, b) && doc[b] == h ==> b == a
  }

  ghost predicate Goes(before: Doc, after: Doc, h: string, a: string, b: string) {
    OnlyAt(before, after, h, a) && OnlyAt(after, before, h, b) && a != b
  }

  ghost predicate GoesSomewhere(before: Doc, after: Doc, h: string) {
    exists a, b :: Goes(before, after, h, a, b)
  }

  // A changed anchor whose text no move accounts for.
  ghost predicate Loose(doc: Doc, other: Doc, before: Doc, after: Doc, a: string) {
    Changed(doc, other, a) && !GoesSomewhere(before, after, doc[a])
  }

  lemma SidesAreChanged(before: Doc, after: Doc)
    ensures forall a :: a in OldSide(before, after) <==> Changed(before, after, a)
    ensures forall a :: a in NewSide(before, after) <==> Changed(after, before, a)
    ensures forall a :: a in OldSide(before, after) ==> OldSide(before, after)[a] == before[a]
    ensures forall a :: a in NewSide(before, after) ==> NewSide(before, after)[a] == after[a]
  {
  }

  lemma SoleHolder(doc: Doc, h: string, a: string)
    requires Holders(doc, h) == {a}
    ensures |Holders(doc, h)| == 1 && AnchorOf(doc, h) == a
  {
  }

  // A text goes from its only changed anchor to its only changed anchor on the other side, or nowhere.
  lemma MovedHashesAre(before: Doc, after: Doc, h: string)
    ensures var from, to := OldSide(before, after), NewSide(before, after);
      && (h in MovedHashes(from, to) <==> GoesSomewhere(before, after, h))
      && (h in MovedHashes(from, to) ==> Holders(from, h) != {} && Holders(to, h) != {}
                                         && Goes(before, after, h, AnchorOf(from, h), AnchorOf(to, h)))
  {
    SidesAreChanged(before, after);
    var from, to := OldSide(before, after), NewSide(before, after);
    if h in MovedHashes(from, to) {
      MovableHeld(from, to, h);
      HeldIsOnly(before, after, from, h, AnchorOf(from, h));
      HeldIsOnly(after, before, to, h, AnchorOf(to, h));
      assert Goes(before, after, h, AnchorOf(from, h), AnchorOf(to, h));
    }
    if GoesSomewhere(before, after, h) {
      var a, b :| Goes(before, after, h, a, b);
      GoingIsMoved(before, after, h, a, b);
    }
  }

  lemma GoingIsMoved(before: Doc, after: Doc, h: string, a: string, b: string)
    requires Goes(before, after, h, a, b)
    ensures h in MovedHashes(OldSide(before, after), NewSide(before, after))
  {
    SidesAreChanged(before, after);
    var from, to := OldSide(before, after), NewSide(before, after);
    OnlyIsHeld(before, after, from, h, a);
    OnlyIsHeld(after, before, to, h, b);
    SoleHolder(from, h, a);
    SoleHolder(to, h, b);
    assert a in from && from[a] == h;
    assert h in Movable(from, to);
  }

  ghost predicate IsSide(doc: Doc, other: Doc, side: Doc) {
    && (forall a :: a in side <==> Changed(doc, other, a))
    && (forall a :: a in side ==> side[a] == doc[a])
  }

  lemma HeldIsOnly(doc: Doc, other: Doc, side: Doc, h: string, a: string)
    requires IsSide(doc, other, side) && Holders(side, h) == {a}
    ensures OnlyAt(doc, other, h, a)
  {
    assert a in Holders(side, h);
    forall b | Changed(doc, other, b) && doc[b] == h ensures b == a {
      assert b in Holders(side, h);
    }
  }

  lemma OnlyIsHeld(doc: Doc, other: Doc, side: Doc, h: string, a: string)
    requires IsSide(doc, other, side) && OnlyAt(doc, other, h, a)
    ensures Holders(side, h) == {a}
  {
  }

  // A move is reported exactly when its text has one changed anchor on each side, and these two differ.
  lemma MovedIff(before: Doc, after: Doc, m: Moved)
    ensures m in DiffDocs(before, after).moved <==> Goes(before, after, m.textHash, m.fromAnchor, m.toAnchor)
  {
    var from, to := OldSide(before, after), NewSide(before, after);
    MovedHashesAre(before, after, m.textHash);
    if m in Moves(from, to) {
      MoveIsUnique(from, to, m);
    }
    if Goes(before, after, m.textHash, m.fromAnchor, m.toAnchor) {
      var o := MoveOf(from, to, m.textHash);
      MoveIsUnique(from, to, o);
      assert AnchorOf(from, m.textHash) in Holders(from, m.textHash);
      assert AnchorOf(to, m.textHash) in Holders(to, m.textHash);
      assert o == m;
    }
  }

  lemma RemainingAreLoose(before: Doc, after: Doc)
    ensures var from, to := OldSide(before, after), NewSide(before, after);
      var moved := MovedHashes(from, to);
      && (forall a :: a in Remaining(from, moved) <==> Loose(before, after, before, after, a))
      && (forall a :: a in Remaining(to, moved) <==> Loose(after, before, before, after, a))
      && (forall a :: a in Remaining(from, moved) ==> Remaining(from, moved)[a] == before[a])
      && (forall a :: a in Remaining(to, moved) ==> Remaining(to, moved)[a] == after[a])
  {
    SidesAreChanged(before, after);
    forall h ensures h in MovedHashes(OldSide(before, after), NewSide(before, after))
                     <==> GoesSomewhere(before, after, h)
    {
      MovedHashesAre(before, after, h);
    }
  }

  // An anchor is modified exactly when both sides have it with different texts, and neither text is moved.
  lemma ModifiedIff(before: Doc, after: Doc, m: Modified)
    ensures m in DiffDocs(before, after).modified <==>
      && m.anchor in before && m.anchor in after
      && before[m.anchor] == m.beforeHash && after[m.anchor] == m.afterHash && m.beforeHash != m.afterHash
      && !GoesSomewhere(before, after, m.beforeHash) && !GoesSomewhere(before, after, m.afterHash)
  {
    RemainingAreLoose(before, after);
    var moved := MovedHashes(OldSide(before, after), NewSide(before, after));
    var restOld, restNew := Remaining(OldSide(before, after), moved), Remaining(NewSide(before, after), moved);
    var both := restOld.Keys * restNew.Keys;
    ModifiedHold(restOld, restNew, both);
    if m.anchor in both {
      var o :| o in ModifiedAt(restOld, restNew, both) && o.anchor == m.anchor;
    }
  }

  // An anchor is removed exactly when its text is not moved, and the other side has no loose text there.
  lemma RemovedIff(before: Doc, after: Doc, r: Block)
    ensures r in DiffDocs(before, after).removed <==>
      && Loose(before, after, before, after, r.anchor) && before[r.anchor] == r.textHash
      && !Loose(after, before, before, after, r.anchor)
  {
    RemainingAreLoose(before, after);
    var moved := MovedHashes(OldSide(before, after), NewSide(before, after));
    var restOld, restNew := Remaining(OldSide(before, after), moved), Remaining(NewSide(before, after), moved);
    RefsHold(restOld, restOld.Keys - restOld.Keys * restNew.Keys);
  }

  lemma AddedIff(before: Doc, after: Doc, r: Block)
    ensures r in DiffDocs(before, after).added <==>
      && Loose(after, before, before, after, r.anchor) && after[r.anchor] == r.textHash
      && !Loose(before, after, before, after, r.anchor)
  {
    RemainingAreLoose(before, after);
    var moved := MovedHashes(OldSide(before, after), NewSide(before, after));
    var restOld, restNew := Remaining(OldSide(before, after), moved), Remaining(NewSide(before, after), moved);
    RefsHold(restNew, restNew.Keys - restOld.Keys * restNew.Keys);
  }

  ghost predicate Exchanged(before: Doc, after: Doc, a: string, b: string) {
    && a != b && before.Keys == {a, b} && after.Keys == {a, b}
    && before[a] != before[b] && after[a] == before[b] && after[b] == before[a]
  }

  lemma ExchangedGo(before: Doc, after: Doc, a: string, b: string, m: Moved)
    requires Exchanged(before, after, a, b)
    ensures Goes(before, after, m.textHash, m.fromAnchor, m.toAnchor)
            <==> m == Moved(before[a], a, b) || m == Moved(before[b], b, a)
  {
  }

  lemma ExchangedTextsGo(before: Doc, after: Doc, a: string, b: string, p: string)
    requires Exchanged(before, after, a, b) && p in before
    ensures GoesSomewhere(before, after, before[p])
  {
    assert Goes(before, after, before[a], a, b) && Goes(before, after, before[b], b, a);
  }

  // Two blocks that exchange their texts are two moves.
  lemma ExchangeIsTwoMoves(before: Doc, after: Doc, a: string, b: string, m: Moved)
    requires Exchanged(before, after, a, b)
    ensures m in DiffDocs(before, after).moved <==> m == Moved(before[a], a, b) || m == Moved(before[b], b, a)
  {
    ExchangedGo(before, after, a, b, m);
    MovedIff(before, after, m);
  }

  lemma ExchangeModifiesNothing(before: Doc, after: Doc, a: string, b: string, m: Modified)
    requires Exchanged(before, after, a, b)
    ensures m !in DiffDocs(before, after).modified
  {
    ModifiedIff(before, after, m);
    if m.anchor in before {
      ExchangedTextsGo(before, after, a, b, m.anchor);
    }
  }

  // ---- The order of the lists, and repeated anchors ----

  lemma RefsAreInOrder(doc: Doc, anchors: set<string>)
    requires anchors <= doc.Keys
    ensures var refs := Refs(doc, anchors);
      forall i, j :: 0 <= i < j < |refs| ==> Less(refs[i].anchor, refs[j].anchor)
  {
    assert StrictlySorted(Sorted(anchors));
  }

  lemma ModifiedAreInOrder(before: Doc, after: Doc, anchors: set<string>)
    requires anchors <= before.Keys * after.Keys
    ensures var refs := ModifiedAt(before, after, anchors);
      forall i, j :: 0 <= i < j < |refs| ==> Less(refs[i].anchor, refs[j].anchor)
  {
    assert StrictlySorted(Sorted(anchors));
  }

  lemma MovesAreInOrder(from: Doc, to: Doc)
    ensures var moves := Moves(from, to);
      forall i, j :: 0 <= i < j < |moves| ==> Less(moves[i].textHash, moves[j].textHash)
  {
    assert StrictlySorted(Sorted(MovedHashes(from, to)));
  }

  lemma ListsAreInOrder(before: Doc, after: Doc)
    ensures var d := DiffDocs(before, after);
      && (forall i, j :: 0 <= i < j < |d.added| ==> Less(d.added[i].anchor, d.added[j].anchor))
      && (forall i, j :: 0 <= i < j < |d.removed| ==> Less(d.removed[i].anchor, d.removed[j].anchor))
      && (forall i, j :: 0 <= i < j < |d.modified| ==> Less(d.modified[i].anchor, d.modified[j].anchor))
      && (forall i, j :: 0 <= i < j < |d.moved| ==> Less(d.moved[i].textHash, d.moved[j].textHash))
  {
    var from, to := OldSide(before, after), NewSide(before, after);
    var restOld, restNew := Remaining(from, MovedHashes(from, to)), Remaining(to, MovedHashes(from, to));
    var both := restOld.Keys * restNew.Keys;
    RefsAreInOrder(restNew, restNew.Keys - both);
    RefsAreInOrder(restOld, restOld.Keys - both);
    ModifiedAreInOrder(restOld, restNew, both);
    MovesAreInOrder(from, to);
  }

  // Of the blocks with one anchor the last one counts.
  lemma {:induction false} LastBlockCounts(blocks: seq<Block>, i: nat)
    requires i < |blocks| && forall j :: i < j < |blocks| ==> blocks[j].anchor != blocks[i].anchor
    ensures blocks[i].anchor in ByAnchor(blocks) && ByAnchor(blocks)[blocks[i].anchor] == blocks[i].textHash
  {
    if i < |blocks| - 1 {
      LastBlockCounts(blocks[..|blocks| - 1], i);
    }
  }
}
