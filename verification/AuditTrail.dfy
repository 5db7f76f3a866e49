/** The audit log and the anchor sink as they run. */
module AuditTrail {
  import opened Seqs
  import opened AuditChain

  class AuditLog {
    var rows: seq<Row>

    ghost predicate Valid() reads this { Verifies(rows) && Numbered(rows) }

    constructor ()
      ensures Valid() && rows == []
    {
      rows := [];
    }

    /** Appends one entry under the next number the database hands out. */
    method Audit(content: Content, number: nat) returns (digest: Digest)
      requires Valid() && (forall r :: r in rows ==> r.number < number)
      modifies this
      ensures Valid() && rows == old(rows) + [Row(number, content, Head(old(rows)), digest)]
      ensures digest == Hash(content, Head(old(rows)))
    {
      var prev := if |rows| > 0 then rows[|rows| - 1].digest else Genesis;
      digest := Hash(content, prev);
      var before := rows;
      rows := rows + [Row(number, content, prev, digest)];
      assert rows[..|rows| - 1] == before;
      assert forall i :: 0 <= i < |before| ==> before[i] in before;
    }
  }

  /** Write-once files, one per chain position. */
  class AnchorSink {
    var files: map<nat, Anchor>

    constructor ()
      ensures files == map[]
    {
      files := map[];
    }

    /** A second anchor for a position is kept out; a different digest there is a fork. */
    method Write(a: Anchor) returns (fork: bool)
      modifies this
      ensures fork == (a.body.number in old(files) && old(files)[a.body.number].body.digest != a.body.digest)
      ensures files == if a.body.number in old(files) then old(files) else old(files)[a.body.number := a]
      ensures !fork ==> a.body.number in files && files[a.body.number].body.digest == a.body.digest
    {
      var number := a.body.number;
      if number in files {
        fork := files[number].body.digest != a.body.digest;
      } else {
        files := files[number := a];
        fork := false;
      }
    }

    /** Anchors the newest entry, if there is one. */
    method AnchorHead(s: Signer, log: AuditLog, at: nat) returns (fork: bool)
      requires log.Valid()
      modifies this
      ensures log.rows == [] ==> !fork && files == old(files)
      ensures log.rows != [] && !fork ==>
        var last := log.rows[|log.rows| - 1];
        last.number in files && files[last.number].body.digest == last.digest
      ensures forall n :: n in old(files) ==> n in files && files[n] == old(files)[n]
    {
      if log.rows == [] { return false; }
      fork := Write(AnchorOf(s, log.rows, at));
    }
  }
}
