/** What the credential operations achieve, entry by entry, and what none of them ever does. */
module CredentialOutcomes {
  import opened Basics
  import opened Credentials

  // ---- Creation ---------------------------------------------------------------------------

  /** Another credential of the provider that is not being deleted has the label. */
  ghost predicate InUse(labels: Labels, index: seq<Metadata>, provider: nat, labelText: string) {
    exists e :: e in index && e.provider == provider && e.normalizedLabel == labels.normalize(labelText)
                && e.state != Deleting
  }

  /** What a creation asks of its parameters and of the index. */
  ghost predicate MayCreate(labels: Labels, index: seq<Metadata>, op: Op)
    requires op.Create?
  {
    && !labels.blank(op.labelText) && |op.labelText| <= 100 && !labels.blank(op.secret) && |op.secret| <= 16_384
    && op.brokerAccepts && (op.authType == "bearer" || op.authType == "x_api_key")
    && !InUse(labels, index, op.provider, op.labelText)
  }

  /** A creation succeeds only when it may, and then adds one unverified entry whose first secret is the given one. */
  lemma {:induction false} CreationOutcome(labels: Labels, op: Op, d: Disk, d': Disk, outcome: Outcome)
    requires op.Create? && Leaves(labels, op, d, d', outcome)
    ensures !MayCreate(labels, d.index, op) ==> d' == d && !outcome.Succeeded?
    ensures MayCreate(labels, d.index, op) ==> !outcome.Rejected?
    ensures outcome.Succeeded? ==>
              && d'.index == d.index + [Metadata(op.ref, op.labelText, labels.normalize(op.labelText), op.provider,
                                                 op.authType, Unverified, None, 2, Some(1), None)]
              && d'.vault == d.vault[(op.ref, 1) := op.secret]
  {
    var e := NewEntry(labels, op.ref, op.labelText, op.provider, op.authType);
    if LabelTaken(d.index, e) {
      var i :| 0 <= i < |d.index| && SameLabel(d.index[i], e);
      assert d.index[i] in d.index;
    }
    if InUse(labels, d.index, op.provider, op.labelText) {
      var x :| x in d.index && x.provider == op.provider && x.normalizedLabel == labels.normalize(op.labelText)
               && x.state != Deleting;
      var i :| 0 <= i < |d.index| && d.index[i] == x;
      assert SameLabel(d.index[i], e);
    }
  }

  // ---- Updates and deletions --------------------------------------------------------------

  /** The caller saw the current version of an entry that is at rest. */
  predicate MayChange(e: Metadata, expected: nat) {
    e.metadataVersion == expected && (e.state == Ready || e.state == Unverified)
  }

  /** An update succeeds only when it may; then the entry is unverified again and only its new secret is left. */
  lemma {:induction false} UpdateOutcome(labels: Labels, op: Op, d: Disk, d': Disk, outcome: Outcome, i: nat)
    requires op.Update? && Safe(labels, d) && Leaves(labels, op, d, d', outcome)
    requires i < |d.index| && d.index[i].ref == op.ref
    ensures
      var e := d.index[i];
      var may := MayChange(e, op.expected) && !labels.blank(op.secret) && |op.secret| <= 16_384 && !op.inUse;
      && (!may ==> d' == d && !outcome.Succeeded?) && (may ==> !outcome.Rejected?)
      && (outcome.Succeeded? ==>
            && e.active.Some?
            && d'.index == d.index[i := e.(state := Unverified, resume := None, pending := None,
                                           active := Some(e.active.value + 1), metadataVersion := op.expected + 2)]
            && d'.vault == d.vault[(e.ref, e.active.value + 1) := op.secret] - {(e.ref, e.active.value)})
  {
    FindUnique(d.index, i);
    assert EntryOk(labels, d.index[i]);
  }

  /**
   A deletion succeeds only when it may and nothing refers to the credential; then its entry
   and its secret are gone and everything else stays.  A refused one costs the entry two
   metadata versions.
   */
  lemma {:induction false} DeletionOutcome(labels: Labels, op: Op, d: Disk, d': Disk, outcome: Outcome, i: nat)
    requires op.Delete? && Safe(labels, d) && Leaves(labels, op, d, d', outcome)
    requires i < |d.index| && d.index[i].ref == op.ref
    ensures
      var e := d.index[i];
      && (!MayChange(e, op.expected) ==> d' == d && !outcome.Succeeded?)
      && (MayChange(e, op.expected) && outcome.Rejected? ==>
            op.references != Some(0)
            && d' == Disk(d.index[i := e.(metadataVersion := op.expected + 2)], d.vault))
      && (outcome.Succeeded? ==>
            && op.references == Some(0) && e.active.Some? && d'.vault == d.vault - {(e.ref, e.active.value)}
            && forall x :: x in d'.index <==> x in d.index && x.ref != op.ref)
  {
    FindUnique(d.index, i);
    assert EntryOk(labels, d.index[i]);
    forall x
      ensures x in Without(d.index, op.ref) <==> x in d.index && x.ref != op.ref
    {
      WithoutMembers(d.index, op.ref, x);
    }
  }

  /** An operation on a reference that the index does not have changes nothing. */
  lemma {:induction false} UnknownReference(labels: Labels, op: Op, d: Disk, d': Disk, outcome: Outcome)
    requires !op.Create? && Leaves(labels, op, d, d', outcome)
    requires forall i :: 0 <= i < |d.index| ==> d.index[i].ref != op.ref
    ensures d' == d && !outcome.Succeeded?
  {
  }

  // ---- Nothing here verifies a secret -----------------------------------------------------

  /** Entry `e` is ready with the same active version as `e'`. */
  ghost predicate WasReady(d: Disk, e: Metadata, e': Metadata) {
    e in d.index && e.ref == e'.ref && e.state == Ready && e.active == e'.active
  }

  /** One operation makes no entry ready, and gives a ready one no other secret version. */
  lemma {:induction false} OperationVerifiesNothing(labels: Labels, op: Op, d: Disk, d': Disk, outcome: Outcome,
                                                    e': Metadata) returns (e: Metadata)
    requires Safe(labels, d) && Fresh(op, d) && Leaves(labels, op, d, d', outcome)
    requires e' in d'.index && e'.state == Ready
    ensures WasReady(d, e, e')
  {
    e := e';
    if e' !in d.index {
      var i := if op.Create? then 0 else Find(d.index, op.ref).value;
      if op.Delete? {
        WithoutMembers(d.index, op.ref, e');
      }
      assert !op.Create? && e' == Kept(d.index[i]);
      e := d.index[i];
    }
  }

  /** Whatever happens, an entry that is ready was ready from the start, with the secret version it has now. */
  lemma {:induction false} NothingBecomesReady(labels: Labels, disks: seq<Disk>, ops: seq<Op>, outcomes: seq<Outcome>,
                                               n: nat, e': Metadata) returns (e: Metadata)
    requires History(labels, disks, ops, outcomes) && n < |disks| && e' in disks[n].index && e'.state == Ready
    ensures WasReady(disks[0], e, e')
  {
    e := e';
    if n > 0 {
      var k := n - 1;
      AlwaysSafe(labels, disks, ops, outcomes, k);
      assert Fresh(ops[k], disks[k]) && Leaves(labels, ops[k], disks[k], disks[k + 1], outcomes[k]);
      e := OperationVerifiesNothing(labels, ops[k], disks[k], disks[n], outcomes[k], e');
      e := NothingBecomesReady(labels, disks, ops, outcomes, k, e);
    }
  }
}
