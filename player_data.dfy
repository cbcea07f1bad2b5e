/**
 * PlayerDataManager, in-memory part: for each player, the list of world
 * names they have been teleported in, and the saves requested so far.
 */
module PlayerData {
  import opened Host

  predicate NoDuplicates(s: seq<string>) {
    forall i, j :: 0 <= i < j < |s| ==> s[i] != s[j]
  }

  /** The list `markPlayerTeleported` stores: `w` appended unless already present. */
  function Marked(worlds: seq<string>, w: string): seq<string> {
    if w in worlds then worlds else worlds + [w]
  }

  /** After marking, `w` is present and nothing else was added. */
  lemma MarkedMembers(worlds: seq<string>, w: string)
    ensures w in Marked(worlds, w)
    ensures forall v :: v in Marked(worlds, w) <==> v in worlds || v == w
  {
  }

  /** Marking twice is marking once. */
  lemma MarkedIdempotent(worlds: seq<string>, w: string)
    ensures Marked(Marked(worlds, w), w) == Marked(worlds, w)
  {
  }

  /** Existing entries keep their order; a new world goes at the end. */
  lemma MarkedKeepsOrder(worlds: seq<string>, w: string)
    ensures |worlds| <= |Marked(worlds, w)| <= |worlds| + 1
    ensures Marked(worlds, w)[..|worlds|] == worlds
    ensures w !in worlds ==> Marked(worlds, w)[|worlds|] == w
  {
  }

  /** Marking never introduces a duplicate. */
  lemma MarkedNoDuplicates(worlds: seq<string>, w: string)
    requires NoDuplicates(worlds)
    ensures NoDuplicates(Marked(worlds, w))
  {
  }

  class PlayerDataManager {
    /** `players.<uuid>.worlds` of the data file, as loaded and updated. */
    var worlds: map<PlayerId, seq<string>>
    /** Number of times the data file was written. */
    var saves: nat

    /** The store as loaded from disk (the YAML file itself is not modelled). */
    constructor (loaded: map<PlayerId, seq<string>>)
      ensures worlds == loaded && saves == 0
    {
      worlds := loaded;
      saves := 0;
    }

    /** `getStringList`: the player's list, or the empty list. */
    function WorldsOf(p: PlayerId): (r: seq<string>)
      reads this
      ensures p in worlds ==> r == worlds[p]
      ensures p !in worlds ==> r == []
    {
      if p in worlds then worlds[p] else []
    }

    /** hasPlayerBeenTeleported */
    function HasPlayerBeenTeleported(p: PlayerId, w: string): (b: bool)
      reads this
      ensures b <==> exists i :: 0 <= i < |WorldsOf(p)| && WorldsOf(p)[i] == w
    {
      w in WorldsOf(p)
    }

    /** markPlayerTeleported */
    method MarkPlayerTeleported(p: PlayerId, w: string)
      modifies this
      ensures WorldsOf(p) == Marked(old(WorldsOf(p)), w)
      ensures worlds == if w in old(WorldsOf(p)) then old(worlds) else old(worlds)[p := old(WorldsOf(p)) + [w]]
      ensures saves == old(saves) + if w in old(WorldsOf(p)) then 0 else 1
      ensures HasPlayerBeenTeleported(p, w)
      ensures forall q :: q != p ==> WorldsOf(q) == old(WorldsOf(q))
      ensures forall v :: v != w ==> HasPlayerBeenTeleported(p, v) == old(HasPlayerBeenTeleported(p, v))
    {
      var list := WorldsOf(p);
      if w !in list {
        list := list + [w];
        worlds := worlds[p := list];
        saves := saves + 1;
      }
    }
  }
}
