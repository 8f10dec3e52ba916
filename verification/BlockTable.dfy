// Replica placement: vdr/block_table/block_table.cpp.
//
// The device's blocks are cut into one group per minion. Group g is stored
// twice: in the first half of minion g and in the second half of minion g+1
// (modulo the number of minions).
module BlockTables {

  datatype Location = Location(minion: nat, slot: nat)

  const GROUPS_PER_MINION: nat := 2

  // Where replica i of a block lives.
  function Place(minions: nat, perGroup: nat, block: nat, i: nat): Location
    requires minions > 0 && perGroup > 0
  {
    Location((block / perGroup + i) % minions, i * perGroup + block % perGroup)
  }

  function Locations(minions: nat, perGroup: nat, block: nat): seq<Location>
    requires minions > 0 && perGroup > 0
  {
    [Place(minions, perGroup, block, 0), Place(minions, perGroup, block, 1)]
  }

  // The inverse of Place: which replica of which block a slot holds.
  function Occupant(minions: nat, perGroup: nat, loc: Location): (r: (nat, nat))
    requires perGroup > 0 && loc.minion < minions && loc.slot < GROUPS_PER_MINION * perGroup
  {
    var i := loc.slot / perGroup;
    var group := if i <= loc.minion then loc.minion - i else loc.minion + minions - i;
    HalfIndex(perGroup, loc.slot);
    (group * perGroup + loc.slot % perGroup, i)
  }

  lemma HalfIndex(perGroup: nat, slot: nat)
    requires perGroup > 0 && slot < GROUPS_PER_MINION * perGroup
    ensures slot / perGroup < GROUPS_PER_MINION
  {
    if slot >= perGroup {
      DivModUnique(slot, perGroup, 1, slot - perGroup);
    } else {
      DivModUnique(slot, perGroup, 0, slot);
    }
  }

  lemma Multiple(a: int, d: nat)
    requires d > 0
    ensures a >= 1 ==> a * d >= d
    ensures a <= -1 ==> a * d + d <= 0
  {
  }

  // Quotient and remainder are unique.
  lemma DivModUnique(x: nat, d: nat, q: nat, r: nat)
    requires d > 0 && r < d && x == q * d + r
    ensures x / d == q && x % d == r
  {
    var q', r' := x / d, x % d;
    assert x == q' * d + r' && r' < d;
    Distribute(q, q', d);
    Multiple(q - q', d);
  }

  lemma Distribute(a: int, b: int, d: int)
    ensures (a - b) * d == a * d - b * d
  {
  }

  lemma InGroup(minions: nat, perGroup: nat, block: nat)
    requires minions > 0 && perGroup > 0 && block < minions * perGroup
    ensures block / perGroup < minions
  {
  }

  lemma GroupShift(minions: nat, group: nat, i: nat)
    requires group < minions && i < GROUPS_PER_MINION
    ensures (group + i) % minions == if group + i < minions then group + i else group + i - minions
  {
    if group + i < minions {
      DivModUnique(group + i, minions, 0, group + i);
    } else {
      DivModUnique(group + i, minions, 1, group + i - minions);
    }
  }

  lemma HalfBound(perGroup: nat, i: nat, off: nat)
    requires i < GROUPS_PER_MINION && off < perGroup
    ensures i * perGroup + off < GROUPS_PER_MINION * perGroup
  {
    if i == 0 {
    } else {
      assert i == 1;
    }
  }

  lemma OccupantOf(minions: nat, perGroup: nat, group: nat, i: nat, off: nat)
    requires group < minions && off < perGroup && i < GROUPS_PER_MINION
    ensures var loc := Location((group + i) % minions, i * perGroup + off);
            && loc.minion < minions && loc.slot < GROUPS_PER_MINION * perGroup
            && Occupant(minions, perGroup, loc) == (group * perGroup + off, i)
  {
    GroupShift(minions, group, i);
    HalfBound(perGroup, i, off);
    DivModUnique(i * perGroup + off, perGroup, i, off);
  }

  // A block's replica is found again from the slot it was put in ...
  lemma PlaceThenOccupant(minions: nat, perGroup: nat, block: nat, i: nat)
    requires minions > 0 && perGroup > 0 && block < minions * perGroup && i < GROUPS_PER_MINION
    ensures Place(minions, perGroup, block, i).minion < minions
    ensures Place(minions, perGroup, block, i).slot < GROUPS_PER_MINION * perGroup
    ensures Occupant(minions, perGroup, Place(minions, perGroup, block, i)) == (block, i)
  {
    var group, off := block / perGroup, block % perGroup;
    assert group < minions by {
      InGroup(minions, perGroup, block);
    }
    assert block == group * perGroup + off;
    OccupantOf(minions, perGroup, group, i, off);
  }

  // ... and every slot of every minion is the place of what it is said to
  // hold: placement is a bijection onto [0, minions) x [0, 2 * perGroup).
  lemma OccupantThenPlace(minions: nat, perGroup: nat, loc: Location)
    requires perGroup > 0 && loc.minion < minions && loc.slot < GROUPS_PER_MINION * perGroup
    ensures var (block, i) := Occupant(minions, perGroup, loc);
            && block < minions * perGroup && i < GROUPS_PER_MINION
            && Place(minions, perGroup, block, i) == loc
  {
    HalfIndex(perGroup, loc.slot);
    var i, off := loc.slot / perGroup, loc.slot % perGroup;
    var group := if i <= loc.minion then loc.minion - i else loc.minion + minions - i;
    GroupShift(minions, group, i);
    assert loc == Location((group + i) % minions, i * perGroup + off);
    hide Place, Occupant;
    OccupantOf(minions, perGroup, group, i, off);
    PlaceOf(minions, perGroup, group, i, off);
  }

  lemma PlaceOf(minions: nat, perGroup: nat, group: nat, i: nat, off: nat)
    requires group < minions && off < perGroup && i < GROUPS_PER_MINION
    ensures group * perGroup + off < minions * perGroup
    ensures Place(minions, perGroup, group * perGroup + off, i) == Location((group + i) % minions, i * perGroup + off)
  {
    TimesMore(group, minions, perGroup);
    DivModUnique(group * perGroup + off, perGroup, group, off);
  }

  lemma TimesMore(a: nat, b: nat, d: nat)
    requires a < b
    ensures a * d + d <= b * d
  {
    Distribute(b, a, d);
    if d > 0 {
      Multiple(b - a, d);
    }
  }

  // The two replicas of a block are on different minions exactly when there
  // is more than one minion.
  lemma ReplicasApart(minions: nat, perGroup: nat, block: nat)
    requires minions > 0 && perGroup > 0 && block < minions * perGroup
    ensures var locs := Locations(minions, perGroup, block);
            && locs[0] != locs[1]
            && (locs[0].minion != locs[1].minion <==> minions >= 2)
  {
    InGroup(minions, perGroup, block);
    GroupShift(minions, block / perGroup, 0);
    GroupShift(minions, block / perGroup, 1);
  }

  // No slot is shared by two blocks, nor by two replicas of one block.
  lemma NoSharedSlot(minions: nat, perGroup: nat, b: nat, c: nat, i: nat, j: nat)
    requires minions > 0 && perGroup > 0 && b < minions * perGroup && c < minions * perGroup
    requires i < GROUPS_PER_MINION && j < GROUPS_PER_MINION
    requires Place(minions, perGroup, b, i) == Place(minions, perGroup, c, j)
    ensures b == c && i == j
  {
    PlaceThenOccupant(minions, perGroup, b, i);
    PlaceThenOccupant(minions, perGroup, c, j);
  }

  datatype GroupLocation = GroupLocation(minion: nat, begin: nat)

  // The i-th entry the constructor files under a group.
  function GroupEntry(minions: nat, perGroup: nat, group: nat, i: nat): GroupLocation
    requires minions > 0
  {
    GroupLocation((group + i) % minions, i * perGroup)
  }

  class BlockTable {
    const blkSize: nat
    const numMinions: nat
    const numBlocksPerGroup: nat
    // The multimap: equal keys keep their insertion order.
    const blkGroup2Location: map<nat, seq<GroupLocation>>

    ghost predicate Valid() {
      && numMinions > 0
      && (forall g: nat :: g in blkGroup2Location <==> g < numMinions)
      && forall g :: g in blkGroup2Location ==>
           blkGroup2Location[g] == [GroupEntry(numMinions, numBlocksPerGroup, g, 0),
                                    GroupEntry(numMinions, numBlocksPerGroup, g, 1)]
    }

    constructor (blkSize: nat, numBlks: nat, numMinions: nat)
      requires numMinions > 0
      requires numBlks % numMinions == 0
      ensures Valid()
      ensures this.blkSize == blkSize && this.numMinions == numMinions
      ensures numMinions * this.numBlocksPerGroup == numBlks
    {
      var perGroup := numBlks / numMinions;
      var groups: map<nat, seq<GroupLocation>> := map[];
      for blkGroup := 0 to numMinions
        invariant forall g: nat :: g in groups <==> g < blkGroup
        invariant forall g :: g in groups ==>
          groups[g] == [GroupEntry(numMinions, perGroup, g, 0), GroupEntry(numMinions, perGroup, g, 1)]
      {
        var row: seq<GroupLocation> := [];
        for i := 0 to GROUPS_PER_MINION
          invariant |row| == i
          invariant forall k :: 0 <= k < i ==> row[k] == GroupEntry(numMinions, perGroup, blkGroup, k)
        {
          row := row + [GroupLocation((blkGroup + i) % numMinions, i * perGroup)];
        }
        assert row == [GroupEntry(numMinions, perGroup, blkGroup, 0), GroupEntry(numMinions, perGroup, blkGroup, 1)];
        groups := groups[blkGroup := row];
      }
      this.blkSize := blkSize;
      this.numMinions := numMinions;
      this.numBlocksPerGroup := perGroup;
      this.blkGroup2Location := groups;
    }

    // Every in-range offset yields its block's two replicas; any other offset
    // finds no group and yields nothing.
    method Translate(offset: nat) returns (ret: seq<Location>)
      requires Valid() && blkSize > 0 && numBlocksPerGroup > 0
      ensures ret == if offset / blkSize < numMinions * numBlocksPerGroup
                     then Locations(numMinions, numBlocksPerGroup, offset / blkSize) else []
    {
      var blk := offset / blkSize;
      var offsetInGroup := blk % numBlocksPerGroup;
      var blkGroup := blk / numBlocksPerGroup;
      var respMinions := if blkGroup in blkGroup2Location then blkGroup2Location[blkGroup] else [];
      ret := [];
      for i := 0 to |respMinions|
        invariant |ret| == i
        invariant forall k :: 0 <= k < i ==>
          ret[k] == Location(respMinions[k].minion, respMinions[k].begin + offsetInGroup)
      {
        ret := ret + [Location(respMinions[i].minion, respMinions[i].begin + offsetInGroup)];
      }
      if blk < numMinions * numBlocksPerGroup {
        InGroup(numMinions, numBlocksPerGroup, blk);
      } else {
        OutOfGroup(numMinions, numBlocksPerGroup, blk);
      }
    }
  }

  lemma OutOfGroup(minions: nat, perGroup: nat, block: nat)
    requires perGroup > 0 && block >= minions * perGroup
    ensures block / perGroup >= minions
  {
    var q := block / perGroup;
    Distribute(q + 1, minions, perGroup);
    if q < minions {
      Multiple(minions - q, perGroup);
      Distribute(minions, q, perGroup);
    }
  }
}
