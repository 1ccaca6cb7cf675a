/**
 The credential index file and the versioned keychain entries beside it.  An operation is a
 series of separate durable writes, each of which may fail, fail after taking effect, or be
 the last thing the process does.
 */
module Credentials {
  import opened Basics

  datatype State = Creating | Updating | Unverified | Ready | Deleting

  datatype Metadata = Metadata(
    ref: nat,
    labelText: string,
    normalizedLabel: string,
    provider: nat,
    authType: string,
    state: State,
    resume: Option<State>,
    metadataVersion: nat,
    active: Option<nat>,
    pending: Option<nat>)

  /** What survives a crash: the index file, and the keychain by reference and secret version. */
  datatype Disk = Disk(index: seq<Metadata>, vault: map<(nat, nat), string>)

  /** Trimming and case folding, which the index applies to labels. */
  datatype Labels = Labels(normalize: string -> string, blank: string -> bool)

  const MAX_LABEL: nat := 100
  const MAX_SECRET: nat := 16_384

  // ---- The index --------------------------------------------------------------------------

  predicate EntryOk(labels: Labels, e: Metadata) {
    && !labels.blank(e.labelText) && e.normalizedLabel == labels.normalize(e.labelText)
    && e.metadataVersion > 0 && e.active != Some(0) && e.pending != Some(0)
    && (e.authType == "bearer" || e.authType == "x_api_key")
    && match e.state
       case Creating => e.active.None? && e.pending == Some(1) && e.resume.None?
       case Updating => e.active.Some? && e.pending == Some(e.active.value + 1) && e.resume.Some?
       case Unverified | Ready => e.active.Some? && e.pending.None? && e.resume.None?
       case Deleting => e.active.Some? && e.pending.None? && e.resume.Some?
  }

  predicate SameLabel(a: Metadata, b: Metadata) {
    !a.state.Deleting? && !b.state.Deleting? && a.provider == b.provider && a.normalizedLabel == b.normalizedLabel
  }

  predicate LabelsUnique(index: seq<Metadata>) {
    forall i, j :: 0 <= i < j < |index| ==> !SameLabel(index[i], index[j])
  }

  /** `CredentialIndexStore::validate` */
  predicate IndexOk(labels: Labels, index: seq<Metadata>) {
    (forall i :: 0 <= i < |index| ==> EntryOk(labels, index[i])) && LabelsUnique(index)
  }

  ghost predicate RefsUnique(index: seq<Metadata>) {
    forall i, j :: 0 <= i < j < |index| ==> index[i].ref != index[j].ref
  }

  /** The entry's secret can be used: it is Ready, Unverified or Updating. */
  predicate Usable(e: Metadata) {
    e.state.Ready? || e.state.Unverified? || e.state.Updating?
  }

  ghost predicate Backed(vault: map<(nat, nat), string>, e: Metadata) {
    Usable(e) ==> e.active.Some? && (e.ref, e.active.value) in vault
  }

  /** The crash-safety invariant. */
  ghost predicate Safe(labels: Labels, d: Disk) {
    && IndexOk(labels, d.index) && RefsUnique(d.index)
    && forall i :: 0 <= i < |d.index| ==> Backed(d.vault, d.index[i])
  }

  function Find(index: seq<Metadata>, ref: nat): (r: Option<nat>)
    ensures r.Some? ==> r.value < |index| && index[r.value].ref == ref
    ensures r.None? ==> forall i :: 0 <= i < |index| ==> index[i].ref != ref
  {
    if index == [] then None
    else
      var r := Find(index[..|index| - 1], ref);
      if r.Some? then r else if index[|index| - 1].ref == ref then Some(|index| - 1) else None
  }

  /** `retain(|item| item.credential_ref != ref)` */
  function Without(index: seq<Metadata>, ref: nat): seq<Metadata> {
    if index == [] then []
    else
      var last := index[|index| - 1];
      Without(index[..|index| - 1], ref) + if last.ref == ref then [] else [last]
  }

  // ---- The forms an entry takes -----------------------------------------------------------

  function NewEntry(labels: Labels, ref: nat, labelText: string, provider: nat, authType: string): Metadata {
    Metadata(ref, labelText, labels.normalize(labelText), provider, authType, Creating, None, 1, None, Some(1))
  }

  function Created(e: Metadata): Metadata {
    e.(state := Unverified, pending := None, active := Some(1), metadataVersion := e.metadataVersion + 1)
  }

  function Next(e: Metadata): nat {
    if e.active.Some? then e.active.value + 1 else 1
  }

  function BeingUpdated(e: Metadata): Metadata {
    e.(state := Updating, resume := Some(Unverified), pending := Some(Next(e)),
       metadataVersion := e.metadataVersion + 1)
  }

  function Updated(e: Metadata): Metadata {
    e.(state := Unverified, resume := None, active := Some(Next(e)), pending := None,
       metadataVersion := e.metadataVersion + 2)
  }

  function BeingDeleted(e: Metadata): Metadata {
    e.(state := Deleting, resume := Some(e.state), metadataVersion := e.metadataVersion + 1)
  }

  function Kept(e: Metadata): Metadata {
    e.(metadataVersion := e.metadataVersion + 2)
  }

  // ---- What an operation may leave behind -------------------------------------------------

  datatype Outcome = Succeeded | Rejected(error: string) | IoError | Crashed

  datatype Op =
    | Create(ref: nat, labelText: string, provider: nat, authType: string, secret: string, brokerAccepts: bool)
    | Update(ref: nat, expected: nat, secret: string, inUse: bool)
    | Delete(ref: nat, expected: nat, references: Option<nat>)

  predicate LabelTaken(index: seq<Metadata>, e: Metadata) {
    exists i :: 0 <= i < |index| && SameLabel(index[i], e)
  }

  predicate Creatable(labels: Labels, index: seq<Metadata>, e: Metadata) {
    !labels.blank(e.labelText) && (e.authType == "bearer" || e.authType == "x_api_key") && !LabelTaken(index, e)
  }

  predicate SecretOk(labels: Labels, secret: string) {
    !labels.blank(secret) && |secret| <= MAX_SECRET
  }

  /** The parameters pass, and the broker accepts the provider's authentication. */
  predicate ParametersOk(labels: Labels, labelText: string, secret: string, brokerAccepts: bool) {
    |labelText| <= MAX_LABEL && SecretOk(labels, secret) && brokerAccepts
  }

  /** The entry may be updated or deleted by a caller who saw this metadata version. */
  predicate Replaceable(index: seq<Metadata>, ref: nat, expected: nat) {
    var i := Find(index, ref);
    i.Some? && index[i.value].metadataVersion == expected
      && (index[i.value].state.Ready? || index[i.value].state.Unverified?)
  }

  ghost predicate CreateResult(d: Disk, d': Disk, e: Metadata, secret: string, outcome: Outcome) {
    var stored := d.vault[(e.ref, 1) := secret];
    match outcome
    case Succeeded => d' == Disk(d.index + [Created(e)], stored)
    case Rejected(_) => d' == d
    case _ =>
      || ((d'.index == d.index || d'.index == d.index + [e]) && (d'.vault == d.vault || d'.vault == stored))
      || d' == Disk(d.index + [Created(e)], stored)
  }

  ghost predicate UpdateResult(d: Disk, d': Disk, i: nat, secret: string, outcome: Outcome)
    requires i < |d.index| && d.index[i].active.Some?
  {
    var e := d.index[i];
    var stored := d.vault[(e.ref, Next(e)) := secret];
    var swapped := stored - {(e.ref, e.active.value)};
    match outcome
    case Succeeded => d' == Disk(d.index[i := Updated(e)], swapped)
    case Rejected(_) => d' == d
    case _ =>
      || ((d'.index == d.index || d'.index == d.index[i := BeingUpdated(e)])
          && (d'.vault == d.vault || d'.vault == stored))
      || (d'.index == d.index[i := Updated(e)] && (d'.vault == stored || d'.vault == swapped))
  }

  /** Nothing is erased unless every reference was seen to be gone. */
  ghost predicate DeleteResult(d: Disk, d': Disk, i: nat, references: Option<nat>, outcome: Outcome)
    requires i < |d.index| && d.index[i].active.Some?
  {
    var e := d.index[i];
    var erased := d.vault - {(e.ref, e.active.value)};
    match outcome
    case Succeeded => references == Some(0) && d' == Disk(Without(d.index, e.ref), erased)
    case Rejected(_) => references != Some(0) && d' == Disk(d.index[i := Kept(e)], d.vault)
    case _ =>
      || d' == d || d' == Disk(d.index[i := BeingDeleted(e)], d.vault)
      || (references != Some(0) && d' == Disk(d.index[i := Kept(e)], d.vault))
      || (references == Some(0) && d' == Disk(d.index[i := BeingDeleted(e)], erased))
      || (references == Some(0) && d' == Disk(Without(d.index, e.ref), erased))
  }

  /** Every disk an operation may leave, with or without failures and crashes. */
  ghost predicate Leaves(labels: Labels, op: Op, d: Disk, d': Disk, outcome: Outcome) {
    match op
    case Create(ref, labelText, provider, authType, secret, brokerAccepts) =>
      var e := NewEntry(labels, ref, labelText, provider, authType);
      var may := ParametersOk(labels, labelText, secret, brokerAccepts) && Creatable(labels, d.index, e);
      && (may ==> CreateResult(d, d', e, secret, outcome) && !outcome.Rejected?)
      && (!may ==> d' == d && !outcome.Succeeded?)
    case Update(ref, expected, secret, inUse) =>
      var i := Find(d.index, ref);
      var may := SecretOk(labels, secret) && Replaceable(d.index, ref, expected) && d.index[i.value].active.Some?;
      && (may && !inUse ==> UpdateResult(d, d', i.value, secret, outcome) && !outcome.Rejected?)
      && (!may || inUse ==> d' == d && !outcome.Succeeded?)
    case Delete(ref, expected, references) =>
      var i := Find(d.index, ref);
      var may := Replaceable(d.index, ref, expected) && d.index[i.value].active.Some?;
      && (may ==> DeleteResult(d, d', i.value, references, outcome))
      && (!may ==> d' == d && !outcome.Succeeded?)
  }

  // ---- Safety of one operation ------------------------------------------------------------

  lemma {:induction false} WithoutMembers(index: seq<Metadata>, ref: nat, e: Metadata)
    ensures e in Without(index, ref) <==> e in index && e.ref != ref
  {
    if index != [] {
      var front, last := index[..|index| - 1], index[|index| - 1];
      WithoutMembers(front, ref, e);
      assert index == front + [last];
    }
  }

  lemma {:induction false} WithoutKeepsUnique(index: seq<Metadata>, ref: nat)
    requires LabelsUnique(index) && RefsUnique(index)
    ensures LabelsUnique(Without(index, ref)) && RefsUnique(Without(index, ref))
  {
    if index != [] {
      var front, last := index[..|index| - 1], index[|index| - 1];
      WithoutKeepsUnique(front, ref);
      var rest := Without(front, ref);
      forall k | 0 <= k < |rest|
        ensures !SameLabel(rest[k], last) && rest[k].ref != last.ref
      {
        WithoutMembers(front, ref, rest[k]);
        var j :| 0 <= j < |front| && front[j] == rest[k];
        assert index[j] == rest[k];
      }
    }
  }

  lemma {:induction false} WithoutAbsent(index: seq<Metadata>, ref: nat)
    requires forall i :: 0 <= i < |index| ==> index[i].ref != ref
    ensures Without(index, ref) == index
  {
    if index != [] {
      WithoutAbsent(index[..|index| - 1], ref);
      assert index == index[..|index| - 1] + [index[|index| - 1]];
    }
  }

  lemma {:induction false} WithoutAdded(index: seq<Metadata>, e: Metadata)
    requires Find(index, e.ref).None?
    ensures Without(index + [e], e.ref) == index
  {
    WithoutAbsent(index, e.ref);
    assert (index + [e])[..|index|] == index;
  }

  lemma {:induction false} WithoutChanged(index: seq<Metadata>, i: nat, e: Metadata)
    requires i < |index| && index[i].ref == e.ref
    ensures Without(index[i := e], e.ref) == Without(index, e.ref)
  {
    var n := |index| - 1;
    if i == n {
      assert index[i := e][..n] == index[..n];
    } else {
      assert index[i := e][..n] == index[..n][i := e];
      WithoutChanged(index[..n], i, e);
    }
  }

  lemma {:induction false} FindUnique(index: seq<Metadata>, i: nat)
    requires RefsUnique(index) && i < |index|
    ensures Find(index, index[i].ref) == Some(i)
  {
  }

  lemma {:induction false} FindAdded(index: seq<Metadata>, e: Metadata)
    requires Find(index, e.ref).None?
    ensures Find(index + [e], e.ref) == Some(|index|)
    ensures (index + [e])[|index| := Created(e)] == index + [Created(e)]
  {
    assert (index + [e])[..|index|] == index;
  }

  /** One entry changes its state but neither its reference nor its label. */
  lemma {:induction false} ReplaceKeeps(labels: Labels, d: Disk, d': Disk, i: nat, e: Metadata)
    requires Safe(labels, d) && i < |d.index| && d'.index == d.index[i := e] && !d.index[i].state.Deleting?
    requires e.ref == d.index[i].ref && e.provider == d.index[i].provider
    requires e.normalizedLabel == d.index[i].normalizedLabel
    requires EntryOk(labels, e) && Backed(d'.vault, e)
    requires forall k :: k in d.vault && k.0 != e.ref ==> k in d'.vault
    ensures Safe(labels, d')
  {
    forall j | 0 <= j < |d'.index|
      ensures Backed(d'.vault, d'.index[j])
    {
      if j != i {
        assert d'.index[j] == d.index[j] && Backed(d.vault, d.index[j]);
        assert d.index[j].ref != d.index[i].ref;
      }
    }
    forall j, k | 0 <= j < k < |d'.index|
      ensures !SameLabel(d'.index[j], d'.index[k])
    {
      assert !SameLabel(d.index[j], d.index[k]);
    }
  }

  lemma {:induction false} AppendKeeps(labels: Labels, d: Disk, d': Disk, e: Metadata)
    requires Safe(labels, d) && d'.index == d.index + [e] && Find(d.index, e.ref).None?
    requires !LabelTaken(d.index, e)
    requires EntryOk(labels, e) && Backed(d'.vault, e)
    requires forall k :: k in d.vault ==> k in d'.vault
    ensures Safe(labels, d')
  {
    forall j | 0 <= j < |d'.index|
      ensures Backed(d'.vault, d'.index[j]) && EntryOk(labels, d'.index[j])
    {
      if j < |d.index| {
        assert Backed(d.vault, d.index[j]);
      }
    }
  }

  lemma {:induction false} RemoveKeeps(labels: Labels, d: Disk, d': Disk, ref: nat)
    requires Safe(labels, d) && d'.index == Without(d.index, ref)
    requires forall k :: k in d.vault && k.0 != ref ==> k in d'.vault
    ensures Safe(labels, d')
  {
    WithoutKeepsUnique(d.index, ref);
    forall j | 0 <= j < |d'.index|
      ensures Backed(d'.vault, d'.index[j]) && EntryOk(labels, d'.index[j])
    {
      WithoutMembers(d.index, ref, d'.index[j]);
      var k :| 0 <= k < |d.index| && d.index[k] == d'.index[j];
      assert Backed(d.vault, d.index[k]);
    }
  }

  lemma {:induction false} VaultKeeps(labels: Labels, d: Disk, d': Disk)
    requires Safe(labels, d) && d'.index == d.index && forall k :: k in d.vault ==> k in d'.vault
    ensures Safe(labels, d')
  {
    forall j | 0 <= j < |d'.index|
      ensures Backed(d'.vault, d'.index[j])
    {
      assert Backed(d.vault, d.index[j]);
    }
  }

  lemma {:induction false} CreateKeeps(labels: Labels, d: Disk, d': Disk, e: Metadata, secret: string, outcome: Outcome)
    requires Safe(labels, d) && Find(d.index, e.ref).None? && Creatable(labels, d.index, e)
    requires e == NewEntry(labels, e.ref, e.labelText, e.provider, e.authType)
    requires CreateResult(d, d', e, secret, outcome)
    ensures Safe(labels, d')
  {
    if d'.index == d.index {
      VaultKeeps(labels, d, d');
    } else if d'.index == d.index + [e] {
      AppendKeeps(labels, d, d', e);
    } else {
      assert forall i :: 0 <= i < |d.index| && SameLabel(d.index[i], Created(e)) ==> SameLabel(d.index[i], e);
      AppendKeeps(labels, d, d', Created(e));
    }
  }

  lemma {:induction false} UpdateKeeps(labels: Labels, d: Disk, d': Disk, i: nat, secret: string, outcome: Outcome)
    requires Safe(labels, d) && i < |d.index| && (d.index[i].state.Ready? || d.index[i].state.Unverified?)
    requires d.index[i].active.Some? && UpdateResult(d, d', i, secret, outcome)
    ensures Safe(labels, d')
  {
    var e := d.index[i];
    assert EntryOk(labels, e) && Backed(d.vault, e);
    if d'.index == d.index {
      VaultKeeps(labels, d, d');
    } else if d'.index == d.index[i := BeingUpdated(e)] {
      ReplaceKeeps(labels, d, d', i, BeingUpdated(e));
    } else {
      ReplaceKeeps(labels, d, d', i, Updated(e));
    }
  }

  lemma {:induction false} DeleteKeeps(labels: Labels, d: Disk, d': Disk, i: nat, references: Option<nat>,
                                       outcome: Outcome)
    requires Safe(labels, d) && i < |d.index| && (d.index[i].state.Ready? || d.index[i].state.Unverified?)
    requires d.index[i].active.Some? && DeleteResult(d, d', i, references, outcome)
    ensures Safe(labels, d')
  {
    var e := d.index[i];
    assert EntryOk(labels, e) && Backed(d.vault, e);
    if d' != d {
      if d'.index == d.index[i := BeingDeleted(e)] {
        ReplaceKeeps(labels, d, d', i, BeingDeleted(e));
      } else if d' == Disk(d.index[i := Kept(e)], d.vault) {
        ReplaceKeeps(labels, d, d', i, Kept(e));
      } else {
        RemoveKeeps(labels, d, d', e.ref);
      }
    }
  }

  /** A fresh UUID is one no entry uses. */
  ghost predicate Fresh(op: Op, d: Disk) {
    op.Create? ==> Find(d.index, op.ref).None?
  }

  lemma {:induction false} OperationKeepsSafe(labels: Labels, op: Op, d: Disk, d': Disk, outcome: Outcome)
    requires Safe(labels, d) && Fresh(op, d) && Leaves(labels, op, d, d', outcome)
    ensures Safe(labels, d')
  {
    if d' != d {
      match op
      case Create(ref, labelText, provider, authType, secret, _) =>
        CreateKeeps(labels, d, d', NewEntry(labels, ref, labelText, provider, authType), secret, outcome);
      case Update(ref, _, secret, _) => UpdateKeeps(labels, d, d', Find(d.index, ref).value, secret, outcome);
      case Delete(ref, _, references) => DeleteKeeps(labels, d, d', Find(d.index, ref).value, references, outcome);
    }
  }

  // ---- Whole histories --------------------------------------------------------------------

  /** The disks between the operations of a history, crashes and restarts included. */
  ghost predicate History(labels: Labels, disks: seq<Disk>, ops: seq<Op>, outcomes: seq<Outcome>) {
    && |ops| == |outcomes| && |disks| == |ops| + 1
    && Safe(labels, disks[0])
    && forall k: nat :: k < |ops| ==>
         Fresh(ops[k], disks[k]) && Leaves(labels, ops[k], disks[k], disks[k + 1], outcomes[k])
  }

  /** Crash safety over any sequence of operations. */
  lemma {:induction false} AlwaysSafe(labels: Labels, disks: seq<Disk>, ops: seq<Op>, outcomes: seq<Outcome>, n: nat)
    requires History(labels, disks, ops, outcomes) && n < |disks|
    ensures Safe(labels, disks[n])
  {
    if n > 0 {
      AlwaysSafe(labels, disks, ops, outcomes, n - 1);
      var before := n - 1;
      assert Fresh(ops[before], disks[before])
             && Leaves(labels, ops[before], disks[before], disks[before + 1], outcomes[before]);
      OperationKeepsSafe(labels, ops[before], disks[before], disks[n], outcomes[before]);
    }
  }

  predicate InTransition(e: Metadata) {
    e.state.Creating? || e.state.Updating? || e.state.Deleting?
  }

  /** The secrets stored under one reference. */
  ghost predicate SameSecrets(d: Disk, d': Disk, ref: nat) {
    forall v :: (ref, v) in d.vault ==> (ref, v) in d'.vault && d'.vault[(ref, v)] == d.vault[(ref, v)]
  }

  /** An operation touches no entry but its own. */
  lemma {:induction false} OthersUntouched(labels: Labels, op: Op, d: Disk, d': Disk, outcome: Outcome, j: nat)
    requires Leaves(labels, op, d, d', outcome) && j < |d.index| && d.index[j].ref != op.ref
    ensures d.index[j] in d'.index && SameSecrets(d, d', d.index[j].ref)
  {
    var e := d.index[j];
    if d' != d {
      match op
      case Create(ref, labelText, provider, authType, secret, _) =>
        var c := NewEntry(labels, ref, labelText, provider, authType);
        assert d.index[j] == (d.index + [c])[j] == (d.index + [Created(c)])[j];
      case Update(ref, _, _, _) =>
        assert d'.index[j] == e;
      case Delete(ref, _, _) =>
        WithoutMembers(d.index, ref, e);
        var i := Find(d.index, ref).value;
        assert d.index[i := BeingDeleted(d.index[i])][j] == d.index[i := Kept(d.index[i])][j] == e;
    }
  }

  /** An operation leaves an entry in transition alone, and with it the secrets under its reference. */
  lemma {:induction false} OperationSkipsTransition(labels: Labels, op: Op, d: Disk, d': Disk, outcome: Outcome,
                                                    e: Metadata)
    requires Safe(labels, d) && Fresh(op, d) && Leaves(labels, op, d, d', outcome) && e in d.index && InTransition(e)
    ensures e in d'.index && SameSecrets(d, d', e.ref)
  {
    var j :| 0 <= j < |d.index| && d.index[j] == e;
    if op.ref == e.ref {
      FindUnique(d.index, j);
      assert d' == d;
    } else {
      OthersUntouched(labels, op, d, d', outcome, j);
    }
  }

  /**
   No operation repairs what a crash left half done: an entry found in transition between
   two operations stays there, unchanged, in every later disk.
   */
  lemma {:induction false} TransitionsAreNeverResumed(labels: Labels, disks: seq<Disk>, ops: seq<Op>,
                                                      outcomes: seq<Outcome>, m: nat, n: nat, e: Metadata)
    requires History(labels, disks, ops, outcomes) && m <= n < |disks| && e in disks[m].index && InTransition(e)
    ensures e in disks[n].index && SameSecrets(disks[m], disks[n], e.ref)
  {
    if m < n {
      TransitionsAreNeverResumed(labels, disks, ops, outcomes, m, n - 1, e);
      NextSkipsTransition(labels, disks, ops, outcomes, n - 1, e);
    }
  }

  lemma {:induction false} NextSkipsTransition(labels: Labels, disks: seq<Disk>, ops: seq<Op>, outcomes: seq<Outcome>,
                                               k: nat, e: Metadata)
    requires History(labels, disks, ops, outcomes) && k + 1 < |disks| && e in disks[k].index && InTransition(e)
    ensures e in disks[k + 1].index && SameSecrets(disks[k], disks[k + 1], e.ref)
  {
    AlwaysSafe(labels, disks, ops, outcomes, k);
    assert Fresh(ops[k], disks[k]) && Leaves(labels, ops[k], disks[k], disks[k + 1], outcomes[k]);
    OperationSkipsTransition(labels, ops[k], disks[k], disks[k + 1], outcomes[k], e);
  }

  /** Entry `e` is still there, no older, with the same active secret. */
  ghost predicate SecretKept(d: Disk, d': Disk, e: Metadata, e': Metadata) {
    && e' in d'.index && e'.ref == e.ref && e'.metadataVersion >= e.metadataVersion && e'.active == e.active
       && e.active.Some?
    && var k := (e.ref, e.active.value); k in d.vault && k in d'.vault && d'.vault[k] == d.vault[k]
  }

  /** The update of `e` went through: the new version holds the new secret. */
  ghost predicate SecretReplaced(op: Op, d': Disk, e: Metadata, e': Metadata) {
    && op.Update? && op.ref == e.ref && op.expected == e.metadataVersion && !op.inUse
    && e' == Updated(e) && e' in d'.index && (e.ref, Next(e)) in d'.vault && d'.vault[(e.ref, Next(e))] == op.secret
  }

  /**
   Whatever an operation does and wherever it stops, a usable entry keeps its active secret
   untouched, or has it replaced as a whole by its own update, or is being deleted with no
   reference left; the active keychain entry is never overwritten.
   */
  lemma {:induction false} ActiveSecretIsNeverTorn(labels: Labels, op: Op, d: Disk, d': Disk, outcome: Outcome,
                                                   i: nat) returns (e': Metadata)
    requires Safe(labels, d) && Fresh(op, d) && Leaves(labels, op, d, d', outcome) && i < |d.index|
    requires Usable(d.index[i])
    ensures var e := d.index[i];
            || SecretKept(d, d', e, e')
            || SecretReplaced(op, d', e, e')
            || (op.Delete? && op.ref == e.ref && op.references == Some(0))
  {
    var e := d.index[i];
    assert EntryOk(labels, e) && Backed(d.vault, e);
    FindUnique(d.index, i);
    e' := e;
    if op.ref != e.ref {
      OthersUntouched(labels, op, d, d', outcome, i);
    } else if d' != d && !(op.Delete? && op.references == Some(0)) {
      e' := d'.index[i];
    }
  }

  // ---- The operations themselves ----------------------------------------------------------

  /** How the world treats one I/O action; `save` renames before it sets permissions, so it can fail after the fact. */
  datatype Fault = Fine | Fails | FailsAfterwards | CrashesBefore | CrashesAfterwards

  datatype Io = Through | Failure | Dead

  function Seen(f: Fault): Io {
    match f
    case Fine => Through
    case Fails | FailsAfterwards => Failure
    case CrashesBefore | CrashesAfterwards => Dead
  }

  predicate Happens(f: Fault) {
    f.Fine? || f.FailsAfterwards? || f.CrashesAfterwards?
  }

  function Unfinished(io: Io): Outcome {
    if io.Dead? then Crashed else IoError
  }

  /** The files and the keychain of one profile, under the lock that all mutations hold. */
  class CredentialStore {
    const labels: Labels
    const world: nat -> Fault
    var clock: nat
    var index: seq<Metadata>
    var vault: map<(nat, nat), string>

    constructor (labels: Labels, world: nat -> Fault)
      ensures this.labels == labels && this.world == world && View() == Disk([], map[]) && Safe(labels, View())
    {
      this.labels, this.world, clock, index, vault := labels, world, 0, [], map[];
    }

    ghost function View(): Disk
      reads this
    {
      Disk(index, vault)
    }

    /** Something went wrong between two moments. */
    ghost predicate Disturbed(from: nat, to: nat) {
      exists t: nat :: from <= t < to && !world(t).Fine?
    }

    /** The write of the secret is refused, and nothing else goes wrong before the roll-back is over. */
    ghost predicate OnlyTheSecretFails(from: nat) {
      world(from).Fine? && world(from + 1).Fails? && world(from + 2).Fine? && world(from + 3).Fine?
    }

    method Load() returns (io: Io)
      modifies this`clock
      ensures clock == old(clock) + 1 && io == Seen(world(old(clock)))
    {
      io := Seen(world(clock));
      clock := clock + 1;
    }

    /** Every index the operations save passes the validation, so it is never what fails. */
    method Save(next: seq<Metadata>) returns (io: Io)
      requires IndexOk(labels, next)
      modifies this`clock, this`index
      ensures clock == old(clock) + 1 && io == Seen(world(old(clock)))
      ensures index == if Happens(world(old(clock))) then next else old(index)
    {
      if Happens(world(clock)) {
        index := next;
      }
      io := Seen(world(clock));
      clock := clock + 1;
    }

    method StoreVersion(ref: nat, version: nat, secret: string) returns (io: Io)
      modifies this`clock, this`vault
      ensures clock == old(clock) + 1 && io == Seen(world(old(clock)))
      ensures vault == if Happens(world(old(clock))) then old(vault)[(ref, version) := secret] else old(vault)
    {
      if Happens(world(clock)) {
        vault := vault[(ref, version) := secret];
      }
      io := Seen(world(clock));
      clock := clock + 1;
    }

    method DeleteVersion(ref: nat, version: nat) returns (io: Io)
      modifies this`clock, this`vault
      ensures clock == old(clock) + 1 && io == Seen(world(old(clock)))
      ensures vault == if Happens(world(old(clock))) then old(vault) - {(ref, version)} else old(vault)
    {
      if Happens(world(clock)) {
        vault := vault - {(ref, version)};
      }
      io := Seen(world(clock));
      clock := clock + 1;
    }

    /** `credential_create_impl` */
    method CreateCredential(ref: nat, labelText: string, provider: nat, authType: string, secret: string,
                            brokerAccepts: bool)
        returns (o: Outcome)
      requires Safe(labels, View()) && Find(index, ref).None?
      modifies this
      ensures Leaves(labels, Create(ref, labelText, provider, authType, secret, brokerAccepts), old(View()), View(), o)
      ensures Safe(labels, View())
      ensures o.Rejected? ==>
                o.error == if labels.blank(labelText) || labels.blank(secret) then "RPC_PARAM_REQUIRED"
                           else if |labelText| > 100 || |secret| > 16_384 then "RPC_PARAMS_INVALID"
                           else if !brokerAccepts then "CREDENTIAL_AUTH_TYPE_REFUSED"
                           else if LabelTaken(old(index), NewEntry(labels, ref, labelText, provider, authType))
                           then "CREDENTIAL_LABEL_DUPLICATE" else "CREDENTIAL_AUTH_TYPE_INVALID"
      ensures clock >= old(clock) && (o.IoError? || o.Crashed? ==> Disturbed(old(clock), clock))
    {
      ghost var d := View();
      var e := NewEntry(labels, ref, labelText, provider, authType);
      if labels.blank(labelText) || labels.blank(secret) {
        return Rejected("RPC_PARAM_REQUIRED");
      }
      if |labelText| > MAX_LABEL || |secret| > MAX_SECRET {
        return Rejected("RPC_PARAMS_INVALID");
      }
      if !brokerAccepts {
        return Rejected("CREDENTIAL_AUTH_TYPE_REFUSED");
      }
      var io := Load();
      if !io.Through? {
        return Unfinished(io);
      }
      if LabelTaken(index, e) {
        return Rejected("CREDENTIAL_LABEL_DUPLICATE");
      }
      if authType != "bearer" && authType != "x_api_key" {
        return Rejected("CREDENTIAL_AUTH_TYPE_INVALID");
      }
      o := InsertCredential(e, secret);
      CreateKeeps(labels, d, View(), e, secret, o);
    }

    method InsertCredential(e: Metadata, secret: string) returns (o: Outcome)
      requires Safe(labels, View()) && Find(index, e.ref).None? && Creatable(labels, index, e)
      requires e == NewEntry(labels, e.ref, e.labelText, e.provider, e.authType)
      modifies this
      ensures CreateResult(old(View()), View(), e, secret, o) && !o.Rejected?
      ensures OnlyTheSecretFails(old(clock)) ==> o.IoError? && View() == old(View())
      ensures clock >= old(clock) && (o.IoError? || o.Crashed? ==> Disturbed(old(clock), clock))
    {
      ghost var d := View();
      CreateKeeps(labels, d, Disk(index + [e], vault), e, secret, Crashed);
      var io := Save(index + [e]);
      if !io.Through? {
        return Unfinished(io);
      }
      io := StoreVersion(e.ref, 1, secret);
      if io.Dead? {
        return Crashed;
      }
      if io.Failure? {
        assert !world(old(clock) + 1).Fine?;
        WithoutAdded(d.index, e);
        o := SaveInstead(Without(index, e.ref));
        return o;
      }
      io := Load();
      if !io.Through? {
        return Unfinished(io);
      }
      CreateKeeps(labels, d, Disk(d.index + [Created(e)], vault), e, secret, Crashed);
      FindAdded(d.index, e);
      var i := Find(index, e.ref).value;
      io := Save(index[i := Created(index[i])]);
      return if io.Through? then Succeeded else Unfinished(io);
    }

    /** Undoing: load the index again, write the older one back, report the failure. */
    method SaveInstead(previous: seq<Metadata>) returns (o: Outcome)
      requires IndexOk(labels, previous)
      modifies this`clock, this`index
      ensures (index == old(index) || index == previous) && clock > old(clock)
      ensures o.IoError? || o.Crashed?
      ensures world(old(clock)).Fine? && world(old(clock) + 1).Fine? ==> o.IoError? && index == previous
    {
      var io := Load();
      if !io.Through? {
        return Unfinished(io);
      }
      io := Save(previous);
      return if io.Dead? then Crashed else IoError;
    }

    /** `credential_update_impl` */
    method UpdateSecret(ref: nat, expected: nat, secret: string, inUse: bool) returns (o: Outcome)
      requires Safe(labels, View())
      modifies this
      ensures Leaves(labels, Update(ref, expected, secret, inUse), old(View()), View(), o) && Safe(labels, View())
      ensures o.Rejected? ==>
                o.error == if labels.blank(secret) then "RPC_PARAM_REQUIRED"
                           else if |secret| > 16_384 then "RPC_PARAMS_INVALID"
                           else if Find(old(index), ref).None? then "CREDENTIAL_NOT_FOUND"
                           else if old(index)[Find(old(index), ref).value].metadataVersion != expected
                           then "CREDENTIAL_VERSION_MISMATCH" else "CREDENTIAL_IN_USE"
      ensures clock >= old(clock) && (o.IoError? || o.Crashed? ==> Disturbed(old(clock), clock))
    {
      ghost var d := View();
      if labels.blank(secret) {
        return Rejected("RPC_PARAM_REQUIRED");
      }
      if |secret| > MAX_SECRET {
        return Rejected("RPC_PARAMS_INVALID");
      }
      var io := Load();
      if !io.Through? {
        return Unfinished(io);
      }
      var found := Find(index, ref);
      if found.None? {
        return Rejected("CREDENTIAL_NOT_FOUND");
      }
      var e := index[found.value];
      if e.metadataVersion != expected {
        return Rejected("CREDENTIAL_VERSION_MISMATCH");
      }
      if !(e.state.Ready? || e.state.Unverified?) || inUse {
        return Rejected("CREDENTIAL_IN_USE");
      }
      o := ReplaceSecret(found.value, secret);
      UpdateKeeps(labels, d, View(), found.value, secret, o);
    }

    method ReplaceSecret(i: nat, secret: string) returns (o: Outcome)
      requires Safe(labels, View()) && i < |index| && (index[i].state.Ready? || index[i].state.Unverified?)
      requires index[i].active.Some?
      modifies this
      ensures UpdateResult(old(View()), View(), i, secret, o) && !o.Rejected?
      ensures OnlyTheSecretFails(old(clock)) ==> o.IoError? && View() == old(View())
      ensures clock >= old(clock) && (o.IoError? || o.Crashed? ==> Disturbed(old(clock), clock))
    {
      ghost var d := View();
      var e := index[i];
      UpdateKeeps(labels, d, Disk(index[i := BeingUpdated(e)], vault), i, secret, Crashed);
      var io := Save(index[i := BeingUpdated(e)]);
      if !io.Through? {
        return Unfinished(io);
      }
      io := StoreVersion(e.ref, Next(e), secret);
      if io.Dead? {
        return Crashed;
      }
      FindUnique(index, i);
      var j := Find(index, e.ref).value;
      if io.Failure? {
        assert !world(old(clock) + 1).Fine?;
        assert index[j := e] == d.index;
        o := SaveInstead(index[j := e]);
        return o;
      }
      io := Load();
      if !io.Through? {
        return Unfinished(io);
      }
      var now := index[j];
      var updated := now.(state := Unverified, resume := None, active := Some(Next(e)), pending := None,
                          metadataVersion := now.metadataVersion + 1);
      UpdateKeeps(labels, d, Disk(d.index[i := Updated(e)], vault), i, secret, Crashed);
      assert index[j := updated] == d.index[i := Updated(e)];
      io := Save(index[j := updated]);
      if !io.Through? {
        return Unfinished(io);
      }
      io := DeleteVersion(e.ref, e.active.value);
      return if io.Through? then Succeeded else Unfinished(io);
    }

    /** `credential_delete_impl`; `references` is what sidecar, snapshots and leases count, if the sidecar answers. */
    method DeleteCredential(ref: nat, expected: nat, references: Option<nat>) returns (o: Outcome)
      requires Safe(labels, View())
      modifies this
      ensures Leaves(labels, Delete(ref, expected, references), old(View()), View(), o) && Safe(labels, View())
      ensures o.Rejected? ==>
                o.error == if Find(old(index), ref).None? then "CREDENTIAL_NOT_FOUND"
                           else if old(index)[Find(old(index), ref).value].metadataVersion != expected
                           then "CREDENTIAL_VERSION_MISMATCH"
                           else if Replaceable(old(index), ref, expected) && references.None?
                           then "SIDECAR_UNAVAILABLE" else "CREDENTIAL_IN_USE"
      ensures clock >= old(clock) && (o.IoError? || o.Crashed? ==> Disturbed(old(clock), clock))
    {
      ghost var d := View();
      var io := Load();
      if !io.Through? {
        return Unfinished(io);
      }
      var found := Find(index, ref);
      if found.None? {
        return Rejected("CREDENTIAL_NOT_FOUND");
      }
      var e := index[found.value];
      if e.metadataVersion != expected {
        return Rejected("CREDENTIAL_VERSION_MISMATCH");
      }
      if !(e.state.Ready? || e.state.Unverified?) {
        return Rejected("CREDENTIAL_IN_USE");
      }
      o := EraseSecret(found.value, references);
      DeleteKeeps(labels, d, View(), found.value, references, o);
    }

    method EraseSecret(i: nat, references: Option<nat>) returns (o: Outcome)
      requires Safe(labels, View()) && i < |index| && (index[i].state.Ready? || index[i].state.Unverified?)
      requires index[i].active.Some?
      modifies this
      ensures DeleteResult(old(View()), View(), i, references, o)
      ensures o.Rejected? ==> o.error == if references.None? then "SIDECAR_UNAVAILABLE" else "CREDENTIAL_IN_USE"
      ensures clock >= old(clock) && (o.IoError? || o.Crashed? ==> Disturbed(old(clock), clock))
    {
      ghost var d := View();
      var e := index[i];
      DeleteKeeps(labels, d, Disk(index[i := BeingDeleted(e)], vault), i, references, Crashed);
      var io := Save(index[i := BeingDeleted(e)]);
      if !io.Through? {
        return Unfinished(io);
      }
      io := Load();
      if !io.Through? {
        return Unfinished(io);
      }
      FindUnique(index, i);
      var j := Find(index, e.ref).value;
      var now := index[j];
      if references != Some(0) {
        var kept := now.(state := e.state, resume := None, metadataVersion := now.metadataVersion + 1);
        DeleteKeeps(labels, d, Disk(d.index[i := Kept(e)], vault), i, references, Crashed);
        assert index[j := kept] == d.index[i := Kept(e)];
        io := Save(index[j := kept]);
        if !io.Through? {
          return Unfinished(io);
        }
        return Rejected(if references.None? then "SIDECAR_UNAVAILABLE" else "CREDENTIAL_IN_USE");
      }
      o := RemoveEntry(d, i, now);
    }

    /** Nothing refers to the entry any more: its secret goes, then the entry itself. */
    method RemoveEntry(ghost d: Disk, ghost i: nat, now: Metadata) returns (o: Outcome)
      requires Safe(labels, d) && i < |d.index| && (d.index[i].state.Ready? || d.index[i].state.Unverified?)
      requires d.index[i].active.Some? && now == BeingDeleted(d.index[i])
      requires View() == Disk(d.index[i := now], d.vault)
      modifies this
      ensures DeleteResult(d, View(), i, Some(0), o) && !o.Rejected?
      ensures clock >= old(clock) && (o.IoError? || o.Crashed? ==> Disturbed(old(clock), clock))
    {
      var io := DeleteVersion(now.ref, now.active.value);
      if !io.Through? {
        return Unfinished(io);
      }
      io := Load();
      if !io.Through? {
        return Unfinished(io);
      }
      WithoutChanged(d.index, i, now);
      DeleteKeeps(labels, d, Disk(Without(index, now.ref), vault), i, Some(0), Crashed);
      io := Save(Without(index, now.ref));
      return if io.Through? then Succeeded else Unfinished(io);
    }
  }
}
