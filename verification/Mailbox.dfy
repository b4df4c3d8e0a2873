/**
 The mailbox of `pm-node`: one-time write slots, the blobs deposited against them, and the owner's
 backup cell. `B` is the type of stored bytes, opaque to the node.
 */
module Mailbox {
  import opened Wrappers
  import opened Crypto

  datatype Blob<+B> = Blob(id: nat, data: B, delivered: bool)

  /** The three tables; `lastId` is the row counter of the autoincrementing blob table. */
  datatype Mailbox<B> = Mailbox(slots: set<Digest>, blobs: seq<Blob<B>>, lastId: nat, backup: Option<B>)

  function Empty<B>(): Mailbox<B> {
    Mailbox({}, [], 0, None)
  }

  /** Rows are in id order; ids count up from one because nothing is ever deleted. */
  ghost predicate Valid<B>(mb: Mailbox<B>) {
    mb.lastId == |mb.blobs| && forall i :: 0 <= i < |mb.blobs| ==> mb.blobs[i].id == i + 1
  }

  function Registered<B>(mb: Mailbox<B>, slotHash: Digest): Mailbox<B> {
    mb.(slots := mb.slots + {slotHash})
  }

  /** A write that matches no slot changes nothing and has no id. */
  function Written<B>(mb: Mailbox<B>, auth: Secret, data: B): (Mailbox<B>, Option<nat>) {
    var slotHash := Sha256(auth);
    if slotHash !in mb.slots then (mb, None)
    else
      var id := mb.lastId + 1;
      (mb.(slots := mb.slots - {slotHash}, blobs := mb.blobs + [Blob(id, data, false)], lastId := id), Some(id))
  }

  function AckedOne<B>(blobs: seq<Blob<B>>, id: nat): seq<Blob<B>> {
    seq(|blobs|, i requires 0 <= i < |blobs| =>
      if blobs[i].id == id then blobs[i].(delivered := true) else blobs[i])
  }

  function AckedAll<B>(mb: Mailbox<B>, ids: seq<nat>): Mailbox<B> {
    mb.(blobs := seq(|mb.blobs|, i requires 0 <= i < |mb.blobs| =>
      mb.blobs[i].(delivered := mb.blobs[i].delivered || mb.blobs[i].id in ids)))
  }

  class MailboxStore<B> {
    var slots: set<Digest>
    var blobs: seq<Blob<B>>
    var lastId: nat
    var backup: Option<B>

    ghost function Contents(): Mailbox<B>
      reads this
    {
      Mailbox(slots, blobs, lastId, backup)
    }

    constructor ()
      ensures Contents() == Empty<B>() && Valid(Contents())
    {
      slots, blobs, lastId, backup := {}, [], 0, None;
    }

    method RegisterSlot(slotHash: Digest)
      modifies this
      ensures Contents() == Registered(old(Contents()), slotHash)
    {
      slots := slots + {slotHash};
    }

    /** Consumes the matching slot and stores the blob, both or neither. */
    method Write(auth: Secret, data: B) returns (id: Option<nat>)
      requires Valid(Contents())
      modifies this
      ensures Valid(Contents())
      ensures (Contents(), id) == Written(old(Contents()), auth, data)
      ensures id.Some? ==> forall b :: b in old(blobs) ==> b.id < id.value
    {
      var slotHash := Sha256(auth);
      if slotHash !in slots {
        return None;
      }
      slots := slots - {slotHash};
      lastId := lastId + 1;
      blobs := blobs + [Blob(lastId, data, false)];
      return Some(lastId);
    }

    method FetchAll() returns (all: seq<Blob<B>>)
      ensures all == blobs
    {
      all := blobs;
    }

    /** One `UPDATE` per id; unknown ids match no row. */
    method Ack(ids: seq<nat>)
      modifies this
      ensures Contents() == AckedAll(old(Contents()), ids)
    {
      ghost var before := Contents();
      for k := 0 to |ids|
        invariant Contents() == AckedAll(before, ids[..k])
      {
        blobs := AckedOne(blobs, ids[k]);
        assert ids[..k + 1] == ids[..k] + [ids[k]];
        assert blobs == AckedAll(before, ids[..k + 1]).blobs;
      }
      assert ids[..|ids|] == ids;
    }

    method PutBackup(blob: B)
      modifies this
      ensures Contents() == old(Contents()).(backup := Some(blob))
    {
      backup := Some(blob);
    }

    method GetBackup() returns (blob: Option<B>)
      ensures blob == backup
    {
      blob := backup;
    }
  }
}
