/** The blob store half of shipping: a snapshot and a manifest per object, fenced by epoch. */
module ObjectStore {
  import opened Prelude
  import opened Registry
  import ObjectContent

  /** What shipping reads and restoring writes is a whole object file. */
  type Bytes = ObjectContent.Content

  const BLANK: Bytes := ObjectContent.Content(map[], [])

  datatype Store = Store(snapshots: map<ObjectId, Bytes>, manifests: map<ObjectId, nat>)

  predicate Fenced(s: Store, o: ObjectId, epoch: nat) {
    o in s.manifests && s.manifests[o] > epoch
  }

  /** Where an upload's requests stop: nowhere, or before its check, its snapshot or its manifest. */
  datatype Fault = NoFault | AtCheck | AtSnapshot | AtManifest

  datatype ShipError = FencedBy(epoch: nat) | RequestFailed

  /** What an upload leaves, whatever became of its requests. */
  function Uploaded(s: Store, o: ObjectId, epoch: nat, bytes: Bytes, fault: Fault): Store {
    if Fenced(s, o, epoch) then s
    else
      match fault
      case NoFault => Store(s.snapshots[o := bytes], s.manifests[o := epoch])
      case AtManifest => s.(snapshots := s.snapshots[o := bytes])
      case _ => s
  }

  class BlobStore {
    var snapshots: map<ObjectId, Bytes>
    var manifests: map<ObjectId, nat>

    ghost function View(): Store
      reads this
    {
      Store(snapshots, manifests)
    }

    ghost predicate Valid()
      reads this
    {
      manifests.Keys <= snapshots.Keys
    }

    constructor ()
      ensures Valid() && View() == Store(map[], map[])
    {
      snapshots, manifests := map[], map[];
    }

    /** Refused when a newer epoch has shipped; otherwise the snapshot is put first, then its manifest. */
    method Ship(o: ObjectId, epoch: nat, file: Bytes, fault: Fault) returns (r: Result<(), ShipError>)
      requires Valid()
      modifies this
      ensures Valid() && View() == Uploaded(old(View()), o, epoch, file, fault)
      ensures r.Success? <==> fault == NoFault && !Fenced(old(View()), o, epoch)
      ensures r.Success? ==> snapshots[o] == file && manifests[o] == epoch
      ensures fault != AtCheck && Fenced(old(View()), o, epoch) ==> r == Failure(FencedBy(old(manifests)[o]))
      ensures fault == AtCheck || (fault != NoFault && !Fenced(old(View()), o, epoch)) ==> r == Failure(RequestFailed)
    {
      if fault == AtCheck {
        return Failure(RequestFailed);
      }
      if o in manifests && manifests[o] > epoch {
        return Failure(FencedBy(manifests[o]));
      }
      if fault == AtSnapshot {
        return Failure(RequestFailed);
      }
      snapshots := snapshots[o := file];
      if fault == AtManifest {
        return Failure(RequestFailed);
      }
      manifests := manifests[o := epoch];
      return Success(());
    }

    /** The last snapshot put, once any manifest was; nothing when none was ever shipped. */
    method Restore(o: ObjectId) returns (file: Option<Bytes>)
      requires Valid()
      ensures file == if o in manifests then Some(snapshots[o]) else None
    {
      if o !in manifests {
        return None;
      }
      return Some(snapshots[o]);
    }
  }
}
