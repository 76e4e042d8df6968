/** The metadata-slot registry shared through the provider's context
    (`currentPageProps`) and filled by `PageProps` components: each mounted
    component owns one slot (a ref whose identity is stable and whose contents
    are overwritten on every render). */
module PageProps {
  import opened Wrappers
  import opened Values
  import opened Sequences

  /** The identity of one component's ref object. */
  type SlotId = nat

  /** The contents of the listed slots, in list order. */
  function SlotContents(ids: seq<SlotId>, contents: map<SlotId, Properties>): seq<Properties>
    requires forall i :: 0 <= i < |ids| ==> ids[i] in contents
  {
    seq(|ids|, i requires 0 <= i < |ids| => contents[ids[i]])
  }

  /** One entry per listed slot: the contents of the slot listed there. */
  lemma SlotContentsAt(ids: seq<SlotId>, contents: map<SlotId, Properties>)
    requires forall i :: 0 <= i < |ids| ==> ids[i] in contents
    ensures |SlotContents(ids, contents)| == |ids|
    ensures forall i :: 0 <= i < |ids| ==> SlotContents(ids, contents)[i] == contents[ids[i]]
  {
  }

  /** Overwriting the contents of one slot changes the listed contents at that
      slot's positions only; a slot that is not listed changes nothing. */
  lemma SlotContentsUpdate(ids: seq<SlotId>, contents: map<SlotId, Properties>, id: SlotId, v: Properties)
    requires forall i :: 0 <= i < |ids| ==> ids[i] in contents
    ensures var before, after := SlotContents(ids, contents), SlotContents(ids, contents[id := v]);
      && |after| == |before|
      && (forall i :: 0 <= i < |ids| ==> after[i] == if ids[i] == id then v else before[i])
      && (id !in ids ==> after == before)
  {
  }

  /** Registering a slot that is not listed appends its contents, and only its
      contents, to the end of the listed contents. */
  lemma SlotContentsAppend(ids: seq<SlotId>, contents: map<SlotId, Properties>, id: SlotId, v: Properties)
    requires forall i :: 0 <= i < |ids| ==> ids[i] in contents
    requires id !in ids
    ensures SlotContents(ids + [id], contents[id := v]) == SlotContents(ids, contents) + [v]
  {
    var after, before := SlotContents(ids + [id], contents[id := v]), SlotContents(ids, contents);
    forall i | 0 <= i < |ids|
      ensures after[i] == before[i]
    {
      assert (ids + [id])[i] == ids[i] != id;
    }
    assert (ids + [id])[|ids|] == id;
  }

  /** Removing the slot listed at position `i` removes exactly the contents at
      position `i`, and the others keep their order. */
  lemma SlotContentsRemove(ids: seq<SlotId>, contents: map<SlotId, Properties>, i: int)
    requires forall j :: 0 <= j < |ids| ==> ids[j] in contents
    requires 0 <= i < |ids|
    ensures SlotContents(ids[..i] + ids[i + 1..], contents)
         == SlotContents(ids, contents)[..i] + SlotContents(ids, contents)[i + 1..]
  {
    var rest := ids[..i] + ids[i + 1..];
    var before := SlotContents(ids, contents);
    forall j | 0 <= j < |rest|
      ensures rest[j] in contents && contents[rest[j]] == (before[..i] + before[i + 1..])[j]
    {
      if j < i {
        assert rest[j] == ids[j];
      } else {
        assert rest[j] == ids[j + 1];
      }
    }
  }

  class SlotRegistry {
    /** The registered slots, in registration order (`currentPageProps`). */
    var slots: seq<SlotId>
    /** The current contents of every slot ref seen so far (`ref.current`). */
    var contents: map<SlotId, Properties>

    /** No slot is listed twice, and every listed slot has contents. */
    ghost predicate Valid()
      reads this
    {
      && NoDuplicates(slots)
      && forall i :: 0 <= i < |slots| ==> slots[i] in contents
    }

    /** The contents of the registered slots, in registration order: what the
        provider folds into an event payload. */
    function Contents(): seq<Properties>
      reads this
      requires Valid()
    {
      SlotContents(slots, contents)
    }

    /** The empty list the provider creates for its context. */
    constructor ()
      ensures Valid()
      ensures slots == [] && contents == map[]
    {
      slots := [];
      contents := map[];
    }

    /** `pagePropsRef.current = pageProperties || {}`: overwrite one slot's
        contents; no other slot and not the list change. */
    method Update(id: SlotId, pageProperties: Option<Properties>)
      requires Valid()
      modifies this
      ensures Valid()
      ensures slots == old(slots)
      ensures contents == old(contents)[id := pageProperties.GetOr(map[])]
      ensures id in contents && contents[id] == pageProperties.GetOr(map[])
      ensures forall other :: other in old(contents) && other != id ==> other in contents && contents[other] == old(contents)[other]
    {
      contents := contents[id := pageProperties.GetOr(map[])];
    }

    /** Push the slot unless it is already listed: registration is idempotent,
        an absent slot goes to the end, and the existing order is kept. */
    method Register(id: SlotId)
      requires Valid() && id in contents
      modifies this
      ensures Valid()
      ensures contents == old(contents)
      ensures id in old(slots) ==> slots == old(slots)
      ensures id !in old(slots) ==> slots == old(slots) + [id]
      ensures id in slots
    {
      if IndexOf(slots, id) == -1 {
        slots := slots + [id];
      }
    }

    /** One render of a `PageProps` component: update its slot's contents, then
        register the slot if it is absent. */
    method RenderSlot(id: SlotId, pageProperties: Option<Properties>)
      requires Valid()
      modifies this
      ensures Valid()
      ensures contents == old(contents)[id := pageProperties.GetOr(map[])]
      ensures slots == if id in old(slots) then old(slots) else old(slots) + [id]
      ensures id !in old(slots) ==> Contents() == old(Contents()) + [pageProperties.GetOr(map[])]
      ensures id in old(slots) ==>
        && |Contents()| == |old(Contents())|
        && forall j :: 0 <= j < |slots| ==>
             Contents()[j] == if slots[j] == id then pageProperties.GetOr(map[]) else old(Contents())[j]
    {
      SlotContentsUpdate(slots, contents, id, pageProperties.GetOr(map[]));
      if id !in slots {
        SlotContentsAppend(slots, contents, id, pageProperties.GetOr(map[]));
      }
      Update(id, pageProperties);
      Register(id);
    }

    /** Unmount: `splice(indexOf(id), 1)`. A listed slot is removed and the others
        keep their order; for a slot that is not listed, `indexOf` gives -1 and the
        splice removes the LAST slot instead. */
    method Unregister(id: SlotId)
      requires Valid()
      modifies this
      ensures Valid()
      ensures contents == old(contents)
      ensures slots == SpliceOne(old(slots), IndexOf(old(slots), id))
      ensures id in old(slots) ==>
        var i := IndexOf(old(slots), id);
        && old(slots)[i] == id
        && slots == old(slots)[..i] + old(slots)[i + 1..]
        && id !in slots
      ensures id !in old(slots) && old(slots) != [] ==> slots == old(slots)[..|old(slots)| - 1]
      ensures id !in old(slots) && old(slots) == [] ==> slots == []
      ensures id in old(slots) ==>
        var i := IndexOf(old(slots), id);
        Contents() == old(Contents())[..i] + old(Contents())[i + 1..]
      ensures id !in old(slots) && old(slots) != [] ==>
        Contents() == old(Contents())[..|old(slots)| - 1]
    {
      var i := IndexOf(slots, id);
      if i == -1 {
        SpliceOneMinusOne(slots);
        if slots != [] {
          RemoveAtKeepsNoDuplicates(slots, |slots| - 1);
          SlotContentsRemove(slots, contents, |slots| - 1);
          assert slots[..|slots| - 1] + slots[|slots|..] == slots[..|slots| - 1];
        }
      } else {
        SpliceOneAt(slots, i);
        RemoveAtKeepsNoDuplicates(slots, i);
        SlotContentsRemove(slots, contents, i);
      }
      slots := SpliceOne(slots, i);
    }
  }

  /** Registering a slot and then unregistering it restores the list it was
      registered into, provided the slot was not there already. */
  lemma RegisterThenUnregister(slots: seq<SlotId>, id: SlotId)
    requires id !in slots
    ensures SpliceOne(slots + [id], IndexOf(slots + [id], id)) == slots
  {
    RemoveFirstAfterAppend(slots, id);
  }
}
