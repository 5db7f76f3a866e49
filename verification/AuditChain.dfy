/** The hash-chained audit log, and the external anchors that fix its past. */
module AuditChain {
  import opened Seqs

  /** When, who, what and about whom; the sequence number is not part of it. */
  datatype Content = Content(at: nat, actor: string, action: string, subject: string, detail: string)

  /** A digest is what was hashed: equal digests come from equal bodies, and nothing hashes to the
      genesis value. */
  datatype Digest = Genesis | Hash(content: Content, prev: Digest)

  datatype Row = Row(number: nat, content: Content, prev: Digest, digest: Digest)

  /** The digest the row after `rows` must name. */
  function Head(rows: seq<Row>): Digest { if rows == [] then Genesis else rows[|rows| - 1].digest }

  predicate Links(prev: Digest, row: Row) { row.prev == prev && row.digest == Hash(row.content, prev) }

  /** `verify_audit_chain`. */
  predicate Verifies(rows: seq<Row>) {
    rows == [] || (Verifies(rows[..|rows| - 1]) && Links(Head(rows[..|rows| - 1]), rows[|rows| - 1]))
  }

  /** Rows are read in the order of their numbers. */
  ghost predicate Numbered(rows: seq<Row>) { forall i, j :: 0 <= i < j < |rows| ==> rows[i].number < rows[j].number }

  function Contents(rows: seq<Row>): seq<Content> { seq(|rows|, i requires 0 <= i < |rows| => rows[i].content) }

  lemma {:induction false} PrefixesVerify(rows: seq<Row>, n: nat)
    requires Verifies(rows) && n <= |rows|
    ensures Verifies(rows[..n])
  {
    if n < |rows| {
      PrefixesVerify(rows[..|rows| - 1], n);
      assert rows[..|rows| - 1][..n] == rows[..n];
    } else {
      assert rows[..n] == rows;
    }
  }

  /** Two verifying logs that end in the same digest hold the same contents throughout. */
  lemma {:induction false} SameHeadSameContents(rows: seq<Row>, other: seq<Row>)
    requires Verifies(rows) && Verifies(other) && Head(rows) == Head(other)
    ensures Contents(rows) == Contents(other)
  {
    if rows != [] && other != [] {
      var init, init' := rows[..|rows| - 1], other[..|other| - 1];
      SameHeadSameContents(init, init');
      assert Contents(rows) == Contents(init) + [rows[|rows| - 1].content];
      assert Contents(other) == Contents(init') + [other[|other| - 1].content];
    }
  }

  /** A digest found in two verifying logs sits at the same position of both, and everything up
      to it is the same. */
  lemma SharedDigestFixesThePast(rows: seq<Row>, other: seq<Row>, i: nat, j: nat)
    requires Verifies(rows) && Verifies(other) && i < |rows| && j < |other| && rows[i].digest == other[j].digest
    ensures i == j && Contents(rows)[..i + 1] == Contents(other)[..i + 1]
  {
    PrefixesVerify(rows, i + 1);
    PrefixesVerify(other, j + 1);
    SameHeadSameContents(rows[..i + 1], other[..j + 1]);
    assert |Contents(rows[..i + 1])| == i + 1 && |Contents(other[..j + 1])| == j + 1;
    assert Contents(rows)[..i + 1] == Contents(rows[..i + 1]);
    assert Contents(other)[..i + 1] == Contents(other[..j + 1]);
  }

  /** An edit the chain does not notice leaves the content alone, unless it is of the last row
      and shows in its digest. */
  lemma UnnoticedEditsKeepContents(rows: seq<Row>, i: nat, edited: Row)
    requires i < |rows| && Verifies(rows) && Verifies(rows[i := edited])
    requires i < |rows| - 1 || edited.digest == rows[i].digest
    ensures edited.content == rows[i].content
  {
    var other, last := rows[i := edited], |rows| - 1;
    assert rows[last].digest == other[last].digest;
    SharedDigestFixesThePast(rows, other, last, last);
    assert Contents(rows)[..last + 1][i] == rows[i].content && Contents(other)[..last + 1][i] == other[i].content;
  }

  // ---------------------------------------------------------------- anchors

  datatype Body = Body(number: nat, digest: Digest, at: nat)

  datatype Anchor = Anchor(body: Body, algorithm: string, keyId: string, signature: string)

  /** A key with its checking half. */
  datatype Signer = Signer(algorithm: string, keyId: string, sign: Body -> string, verify: (Body, string) -> bool)

  /** What is signed checks. */
  ghost predicate SignerOk(s: Signer) { forall b :: s.verify(b, s.sign(b)) }

  datatype Problem = AnotherKey | InvalidSignature | EntryMissing | EntryChanged

  /** The row of that number, if there is one. */
  function At(rows: seq<Row>, number: nat): Option<Row> {
    if rows == [] then None
    else if rows[|rows| - 1].number == number then Some(rows[|rows| - 1])
    else At(rows[..|rows| - 1], number)
  }

  function ProblemWith(s: Signer, rows: seq<Row>, a: Anchor): Option<Problem> {
    if a.algorithm != s.algorithm || a.keyId != s.keyId then Some(AnotherKey)
    else if !s.verify(a.body, a.signature) then Some(InvalidSignature)
    else match At(rows, a.body.number)
      case None => Some(EntryMissing)
      case Some(row) => if row.digest != a.body.digest then Some(EntryChanged) else None
  }

  lemma {:induction false} AtFinds(rows: seq<Row>, number: nat) returns (i: nat)
    requires At(rows, number).Some?
    ensures i < |rows| && rows[i] == At(rows, number).value && rows[i].number == number
  {
    if rows[|rows| - 1].number == number { i := |rows| - 1; } else { i := AtFinds(rows[..|rows| - 1], number); }
  }

  lemma {:induction false} AtKnows(rows: seq<Row>, i: nat)
    requires Numbered(rows) && i < |rows|
    ensures At(rows, rows[i].number) == Some(rows[i])
  {
    if i < |rows| - 1 { AtKnows(rows[..|rows| - 1], i); }
  }

  ghost predicate HasNumber(rows: seq<Row>, number: nat) { exists i :: 0 <= i < |rows| && rows[i].number == number }

  ghost predicate HasRow(rows: seq<Row>, number: nat, digest: Digest) {
    exists i :: 0 <= i < |rows| && rows[i].number == number && rows[i].digest == digest
  }

  /** What is wrong with an anchor, in terms of the rows and the key: it was made with another key,
      or its signature does not check, or no row has its number, or the one that has it has
      another digest; and otherwise nothing is. */
  lemma AnchorMeaning(s: Signer, rows: seq<Row>, a: Anchor)
    requires Numbered(rows)
    ensures var ours, signed := a.algorithm == s.algorithm && a.keyId == s.keyId, s.verify(a.body, a.signature);
            && (ProblemWith(s, rows, a) == Some(AnotherKey) <==> !ours)
            && (ProblemWith(s, rows, a) == Some(InvalidSignature) <==> ours && !signed)
            && (ProblemWith(s, rows, a) == Some(EntryMissing) <==> ours && signed && !HasNumber(rows, a.body.number))
            && (ProblemWith(s, rows, a) == Some(EntryChanged) <==>
                ours && signed && HasNumber(rows, a.body.number) && !HasRow(rows, a.body.number, a.body.digest))
            && (ProblemWith(s, rows, a) == None <==> ours && signed && HasRow(rows, a.body.number, a.body.digest))
  {
    if At(rows, a.body.number).Some? {
      var i := AtFinds(rows, a.body.number);
    }
    if HasNumber(rows, a.body.number) {
      var i: nat :| i < |rows| && rows[i].number == a.body.number;
      AtKnows(rows, i);
      assert forall j :: 0 <= j < |rows| && rows[j].number == a.body.number ==> j == i;
    }
  }

  /** Anchoring the head of a log. */
  function AnchorOf(s: Signer, rows: seq<Row>, at: nat): Anchor
    requires rows != []
  {
    var last := rows[|rows| - 1];
    var body := Body(last.number, last.digest, at);
    Anchor(body, s.algorithm, s.keyId, s.sign(body))
  }

  /** A log that has only grown since it was anchored shows no problem. */
  lemma HonestGrowthIsClean(s: Signer, rows: seq<Row>, later: seq<Row>, at: nat)
    requires SignerOk(s) && Numbered(later) && rows != [] && rows <= later
    ensures ProblemWith(s, later, AnchorOf(s, rows, at)) == None
  {
    AtKnows(later, |rows| - 1);
  }

  /** A clean anchor fixes the whole past it was taken on: contents and their order, and
      nothing inserted or removed before it. */
  lemma CleanAnchorFixesThePast(s: Signer, rows: seq<Row>, now: seq<Row>, at: nat)
    requires Verifies(rows) && Verifies(now) && rows != []
    requires ProblemWith(s, now, AnchorOf(s, rows, at)) == None
    ensures |rows| <= |now| && Contents(now)[..|rows|] == Contents(rows)
    ensures At(now, rows[|rows| - 1].number) == Some(now[|rows| - 1])
  {
    var j := AtFinds(now, rows[|rows| - 1].number);
    SharedDigestFixesThePast(rows, now, |rows| - 1, j);
    assert Contents(rows)[..|rows|] == Contents(rows);
  }

  // ---------------------------------------------------------------- numbers

  /** As the database hands numbers out: rising, from one. */
  ghost predicate NumberedFromOne(rows: seq<Row>) { Numbered(rows) && (rows != [] ==> rows[0].number >= 1) }

  /** A table that passes chain verification and in which the row anchored at `i` is unchanged. */
  ghost predicate Passes(rows: seq<Row>, i: nat, other: seq<Row>)
    requires i < |rows|
  {
    && Verifies(other) && NumberedFromOne(other)
    && At(other, rows[i].number).Some? && At(other, rows[i].number).value.digest == rows[i].digest
  }

  lemma {:induction false} NumbersRise(rows: seq<Row>, i: nat, j: nat)
    requires NumberedFromOne(rows) && i <= j < |rows|
    ensures i + 1 <= rows[i].number && rows[i].number + (j - i) <= rows[j].number
    decreases i + j
  {
    if i < j { NumbersRise(rows, i, j - 1); } else if i > 0 { NumbersRise(rows, i - 1, i - 1); }
  }

  /** The contents fix the digests. */
  lemma {:induction false} SameContentsSameRows(rows: seq<Row>, other: seq<Row>)
    requires Verifies(rows) && Verifies(other) && Contents(rows) == Contents(other)
    ensures |rows| == |other| && Head(rows) == Head(other)
    ensures forall j :: 0 <= j < |rows| ==> other[j] == rows[j].(number := other[j].number)
  {
    assert |rows| == |Contents(rows)| == |Contents(other)|;
    if rows != [] {
      var last := |rows| - 1;
      assert Contents(rows[..last]) == Contents(rows)[..last] && Contents(other[..last]) == Contents(other)[..last];
      SameContentsSameRows(rows[..last], other[..last]);
      assert Contents(rows)[last] == Contents(other)[last];
      forall j | 0 <= j < |rows| ensures other[j] == rows[j].(number := other[j].number) {
        if j < last { assert other[..last][j] == rows[..last][j].(number := other[..last][j].number); }
      }
    }
  }

  /** What passes differs before the anchored row in numbers at most. */
  lemma PassingDiffersInNumbers(rows: seq<Row>, i: nat, other: seq<Row>)
    requires Verifies(rows) && i < |rows| && Passes(rows, i, other)
    ensures i < |other| && other[i] == rows[i]
    ensures forall j :: 0 <= j < i ==> other[j] == rows[j].(number := other[j].number)
  {
    var j := AtFinds(other, rows[i].number);
    SharedDigestFixesThePast(rows, other, i, j);
    PrefixesVerify(rows, i + 1);
    PrefixesVerify(other, i + 1);
    assert Contents(rows[..i + 1]) == Contents(rows)[..i + 1] && Contents(other[..i + 1]) == Contents(other)[..i + 1];
    SameContentsSameRows(rows[..i + 1], other[..i + 1]);
    forall x | 0 <= x <= i ensures other[x] == rows[x].(number := other[x].number) {
      assert other[..i + 1][x] == rows[..i + 1][x].(number := other[..i + 1][x].number);
    }
  }

  lemma NoNumberSkipped(rows: seq<Row>, i: nat, other: seq<Row>)
    requires Verifies(rows) && NumberedFromOne(rows) && i < |rows| && Passes(rows, i, other)
    requires i == 0 || rows[i].number == i + 1
    ensures i < |other| && other[..i + 1] == rows[..i + 1]
  {
    PassingDiffersInNumbers(rows, i, other);
    forall j | 0 <= j < i ensures other[j] == rows[j] {
      NumbersRise(rows, j, i);
      NumbersRise(other, j, i);
    }
  }

  function NumberAt(rows: seq<Row>, i: nat, last: nat, j: nat): nat
    requires j < |rows|
  {
    if j + 1 < i then j + 1 else if j + 1 == i then last else rows[j].number
  }

  /** The first `i` rows numbered from one, the last of them `last`. */
  function Renumbered(rows: seq<Row>, i: nat, last: nat): (r: seq<Row>)
    ensures |r| == |rows|
    ensures forall j :: 0 <= j < |rows| ==> r[j] == rows[j].(number := NumberAt(rows, i, last, j))
  {
    seq(|rows|, j requires 0 <= j < |rows| => rows[j].(number := NumberAt(rows, i, last, j)))
  }

  lemma RenumberedRises(rows: seq<Row>, i: nat, last: nat)
    requires NumberedFromOne(rows) && 0 < i < |rows| && i <= last < rows[i].number
    ensures NumberedFromOne(Renumbered(rows, i, last))
  {
    forall j, k | 0 <= j < k < |rows| ensures NumberAt(rows, i, last, j) < NumberAt(rows, i, last, k) {
      assert k >= i ==> rows[i].number <= rows[k].number;
    }
  }

  /** The chain is about contents and order, not about numbers. */
  lemma {:induction false} ChainIgnoresNumbers(rows: seq<Row>, other: seq<Row>)
    requires Verifies(rows) && |other| == |rows| && forall j :: 0 <= j < |rows| ==> other[j] == rows[j].(number := other[j].number)
    ensures Verifies(other) && Head(other) == Head(rows)
  {
    if rows != [] { ChainIgnoresNumbers(rows[..|rows| - 1], other[..|rows| - 1]); }
  }

  lemma RestUnchanged(rows: seq<Row>, i: nat, last: nat)
    requires 0 < i < |rows|
    ensures var other := Renumbered(rows, i, last);
            other[i] == rows[i] && other[i..] == rows[i..] && other[i - 1].number == last
  {
    var other := Renumbered(rows, i, last);
    forall j | i <= j < |rows| ensures other[j] == rows[j] {}
  }

  /** With a number skipped before it, another numbering passes under the same anchor. */
  lemma RenumberingPasses(rows: seq<Row>, i: nat) returns (other: seq<Row>)
    requires Verifies(rows) && NumberedFromOne(rows) && 0 < i < |rows| && rows[i].number != i + 1
    ensures Passes(rows, i, other) && i < |other| && other[i..] == rows[i..]
    ensures other[i - 1].number != rows[i - 1].number
  {
    var last := if rows[i - 1].number == i then i + 1 else i;
    other := Renumbered(rows, i, last);
    NumbersRise(rows, i, i);
    RenumberedRises(rows, i, last);
    RestUnchanged(rows, i, last);
    ChainIgnoresNumbers(rows, other);
    AtKnows(other, i);
  }

  /** An anchor fixes the numbers of the rows before it exactly when none is skipped up to the
      anchored row, or there is no row before it. */
  lemma AnchorFixesNumbersIff(rows: seq<Row>, i: nat)
    requires Verifies(rows) && NumberedFromOne(rows) && i < |rows|
    ensures (forall other :: Passes(rows, i, other) ==> rows[..i + 1] <= other) <==> i == 0 || rows[i].number == i + 1
  {
    if i == 0 || rows[i].number == i + 1 {
      forall other | Passes(rows, i, other) ensures rows[..i + 1] <= other { NoNumberSkipped(rows, i, other); }
    } else {
      var other := RenumberingPasses(rows, i);
      assert rows[..i + 1][i - 1] != other[i - 1];
    }
  }

  // ---------------------------------------------------------------- verification

  /** Walks any table of rows, however it came about. */
  method VerifyChain(rows: seq<Row>) returns (ok: bool, entries: nat)
    ensures ok == Verifies(rows) && entries == |rows|
  {
    entries := |rows|;
    var prev := Genesis;
    for i := 0 to |rows|
      invariant Verifies(rows[..i]) && prev == Head(rows[..i])
    {
      assert rows[..i + 1][..i] == rows[..i] && rows[..i + 1][i] == rows[i];
      var body := Hash(rows[i].content, prev);
      if rows[i].prev != prev || body != rows[i].digest {
        if Verifies(rows) { PrefixesVerify(rows, i + 1); }
        return false, entries;
      }
      prev := rows[i].digest;
    }
    assert rows[..|rows|] == rows;
    ok := true;
  }

  /** Chain and anchors together: the report is clean exactly when the chain verifies and no
      anchor has a problem. */
  method VerifyWithAnchors(s: Signer, rows: seq<Row>, anchors: seq<Anchor>) returns (valid: bool, problems: seq<(Anchor, Problem)>)
    ensures valid == Verifies(rows)
    ensures forall a :: a in anchors && ProblemWith(s, rows, a).Some? ==> (a, ProblemWith(s, rows, a).value) in problems
    ensures forall p :: p in problems ==> p.0 in anchors && ProblemWith(s, rows, p.0) == Some(p.1)
  {
    var entries;
    valid, entries := VerifyChain(rows);
    problems := [];
    for i := 0 to |anchors|
      invariant forall k :: 0 <= k < i && ProblemWith(s, rows, anchors[k]).Some? ==> (anchors[k], ProblemWith(s, rows, anchors[k]).value) in problems
      invariant forall p :: p in problems ==> p.0 in anchors && ProblemWith(s, rows, p.0) == Some(p.1)
    {
      var a := anchors[i];
      var found := None;
      if a.algorithm != s.algorithm || a.keyId != s.keyId {
        found := Some(AnotherKey);
      } else if !s.verify(a.body, a.signature) {
        found := Some(InvalidSignature);
      } else {
        var row := At(rows, a.body.number);
        if row.None? { found := Some(EntryMissing); } else if row.value.digest != a.body.digest { found := Some(EntryChanged); }
      }
      assert found == ProblemWith(s, rows, a);
      if found.Some? { problems := problems + [(a, found.value)]; }
    }
  }
}
