/**
 * Moving a key to another source when the old link cannot be removed.  The
 * result of that unlink is ignored: the new link is made all the same.
 */
module Relinking {
  import opened CacheTypes
  import opened FileSystem
  import opened CacheInvariant
  import opened Operations

  /** A new link, unless there is one by that name. */
  function LinkIfAbsent(d: Disk, slot: Slot, source: Hash, onSuccess: AddKeyResult, link: Fault): (Disk, AddKeyResult)
    requires SrcFile(source, Ref) in d.files ==> d.files[SrcFile(source, Ref)] in d.inodes
  {
    if KeyLink(slot, source) in d.files then (d, LinkError(link))
    else NewLink(d, slot, source, onSuccess, link)
  }

  /** Points a key/prio directory at a source; dropping the link it had may fail. */
  ghost function Relink(d: Disk, slot: Slot, source: Hash, ifAdded: AddKeyResult, unlink: Fault, link: Fault)
    : (Disk, AddKeyResult)
    requires FsInv(d)
  {
    if slot !in d.slots then
      (d, InternalError)
    else
      match CurrentLink(d, slot)
      case None => LinkIfAbsent(d, slot, source, ifAdded, link)
      case Some(prior) =>
        if prior == source then
          (d, NotChanged)
        else if unlink == Fine then
          RemoveKeeps(d, {KeyLink(slot, prior)});
          LinkIfAbsent(Remove(d, {KeyLink(slot, prior)}), slot, source, Replaced, link)
        else
          LinkIfAbsent(d, slot, source, Replaced, link)
  }

  /** With an unlink that succeeds this is what the manager's operations use. */
  lemma RelinkFine(d: Disk, slot: Slot, source: Hash, ifAdded: AddKeyResult, link: Fault)
    requires CacheInv(d)
    ensures Relink(d, slot, source, ifAdded, Fine, link) == LinkToSource(d, slot, source, ifAdded, link)
  {
  }

  lemma LinkIfAbsentCounted(d: Disk, slot: Slot, source: Hash, onSuccess: AddKeyResult, link: Fault)
    requires FsInv(d) && Anchored(d) && slot in d.slots
    ensures var e := LinkIfAbsent(d, slot, source, onSuccess, link).0;
      FsInv(e) && Anchored(e)
  {
    var name, ref := KeyLink(slot, source), SrcFile(source, Ref);
    if link == Fine && ref in d.files && name !in d.files {
      AddLinkKeeps(d, ref, name);
      AddEntryAnchored(d.files, ref, name);
    }
  }

  lemma UnlinkedAnchored(d: Disk, slot: Slot, source: Hash)
    requires FsInv(d) && Anchored(d)
    ensures var e := Remove(d, {KeyLink(slot, source)});
      FsInv(e) && Anchored(e)
  {
    RemoveKeeps(d, {KeyLink(slot, source)});
  }

  lemma RelinkAnchored(d: Disk, slot: Slot, source: Hash, ifAdded: AddKeyResult, unlink: Fault, link: Fault)
    requires FsInv(d) && Anchored(d)
    ensures var e := Relink(d, slot, source, ifAdded, unlink, link).0;
      FsInv(e) && Anchored(e)
  {
    if slot in d.slots {
      match CurrentLink(d, slot)
      case None => LinkIfAbsentCounted(d, slot, source, ifAdded, link);
      case Some(prior) =>
        if unlink == Fine {
          UnlinkedAnchored(d, slot, prior);
          LinkIfAbsentCounted(Remove(d, {KeyLink(slot, prior)}), slot, source, Replaced, link);
        } else {
          LinkIfAbsentCounted(d, slot, source, Replaced, link);
        }
    }
  }

  /**
   * However often unlinking fails, link counts stay exact and every link
   * leads to an existing source.
   */
  lemma RelinkKeepsCounts(d: Disk, slot: Slot, source: Hash, ifAdded: AddKeyResult, unlink: Fault, link: Fault)
    requires FsInv(d) && Anchored(d)
    ensures var e := Relink(d, slot, source, ifAdded, unlink, link).0;
      && FsInv(e) && Anchored(e)
      && (forall s :: e.Has(SrcFile(s, Ref)) ==> e.At(SrcFile(s, Ref)).nlink == 1 + |Holders(e, s)|)
      && (forall s, t :: e.Has(KeyLink(t, s)) ==> s in e.srcDirs && e.Has(SrcFile(s, Ref)))
  {
    RelinkAnchored(d, slot, source, ifAdded, unlink, link);
    CountsOf(Relink(d, slot, source, ifAdded, unlink, link).0);
  }

  lemma CountsOf(e: Disk)
    requires FsInv(e) && Anchored(e)
    ensures forall s :: e.Has(SrcFile(s, Ref)) ==> e.At(SrcFile(s, Ref)).nlink == 1 + |Holders(e, s)|
    ensures forall s, t :: e.Has(KeyLink(t, s)) ==> s in e.srcDirs && e.Has(SrcFile(s, Ref))
  {
    forall s | e.Has(SrcFile(s, Ref))
      ensures e.At(SrcFile(s, Ref)).nlink == 1 + |Holders(e, s)|
    {
      RefCountsHolders(e, s);
    }
    forall s, t | e.Has(KeyLink(t, s))
      ensures s in e.srcDirs && e.Has(SrcFile(s, Ref))
    {
      assert Anchor(KeyLink(t, s)) == SrcFile(s, Ref);
      assert ParentExists(e, SrcFile(s, Ref));
    }
  }

  /** The key gets a second link if and only if the unlink fails and the new link is made beside the old one. */
  lemma OneLinkIff(d: Disk, slot: Slot, source: Hash, ifAdded: AddKeyResult, unlink: Fault, link: Fault)
    requires CacheInv(d)
    ensures OneLinkPerSlot(Relink(d, slot, source, ifAdded, unlink, link).0) <==>
      || unlink == Fine
      || CurrentLink(d, slot) == None || CurrentLink(d, slot) == Some(source)
      || link != Fine || SrcFile(source, Ref) !in d.files
  {
    var e := Relink(d, slot, source, ifAdded, unlink, link).0;
    match CurrentLink(d, slot)
    case None => NoLinkNoOther(d, slot, source, ifAdded, link);
    case Some(prior) =>
      LinkedSourceExists(d, slot, prior);
      if unlink == Fine {
        RelinkFine(d, slot, source, ifAdded, link);
        LinkToSourceInv(d, slot, source, ifAdded, link);
      } else if prior != source && link == Fine && SrcFile(source, Ref) in d.files {
        assert KeyLink(slot, source) !in d.files;
        assert KeyLink(slot, prior) in e.files && KeyLink(slot, source) in e.files;
      }
  }

  lemma NoLinkNoOther(d: Disk, slot: Slot, source: Hash, ifAdded: AddKeyResult, link: Fault)
    requires CacheInv(d) && CurrentLink(d, slot) == None
    ensures OneLinkPerSlot(LinkIfAbsent(d, slot, source, ifAdded, link).0)
  {
  }
}
