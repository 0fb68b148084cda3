/** pkg/reconciler/base.go, ReconcileServiceAccount: secrets are merged, not replaced, so
    that the token the cluster adds to every service account survives. */
module ServiceAccounts {
  import opened Ordering
  import opened Strings
  import A = Algorithms

  datatype ObjectRef = ObjectRef(name: string, details: string)

  predicate RefLess(a: ObjectRef, b: ObjectRef) { StrLess(a.name, b.name) }

  const WI_ANNOTATION := "iam.gke.io/gcp-service-account"

  lemma RefLessIsOrder()
    ensures StrictWeakOrder(RefLess)
    ensures forall a, b :: Equivalent(RefLess, a, b) <==> a.name == b.name
  {
    StrLessIsOrder();
    forall x, y, z | RefLess(x, y) && RefLess(y, z) ensures RefLess(x, z) {
      StrLessTransitive(x.name, y.name, z.name);
    }
    forall x, y, z | !RefLess(x, y) && !RefLess(y, z) ensures !RefLess(x, z) {
      assert !StrLess(x.name, y.name) && !StrLess(y.name, z.name);
    }
    forall a, b ensures Equivalent(RefLess, a, b) <==> a.name == b.name {
      StrLessTotal(a.name, b.name);
    }
  }

  /** `rest` is everything that a reconcile neither compares nor writes. */
  datatype Account = Account(
    labels: map<string, string>,
    annotations: map<string, string>,
    secrets: seq<ObjectRef>,
    imagePullSecrets: seq<ObjectRef>,
    rest: string)

  function Get(m: map<string, string>, key: string): string
  {
    if key in m then m[key] else ""
  }

  /** A result `Merge` may have: which of several references with one name in the actual
      list is kept is up to an unstable sort. */
  ghost predicate Merged(desired: seq<ObjectRef>, actual: seq<ObjectRef>, r: seq<ObjectRef>)
  {
    && StrictlySorted(RefLess, r)
    && (forall x :: HasClass(RefLess, r, x) <==> HasClass(RefLess, desired, x) || HasClass(RefLess, actual, x))
    && (forall x :: x in r ==> x in actual || (x in desired && !HasClass(RefLess, actual, x)))
    && (A.Deduped(RefLess, actual) ==> r == A.MergeOf(RefLess, desired, actual))
  }

  predicate UpToDate(merged: Account, actual: Account, checkForWI: bool)
  {
    && merged.labels == actual.labels
    && merged.secrets == actual.secrets
    && merged.imagePullSecrets == actual.imagePullSecrets
    && (checkForWI ==> Get(merged.annotations, WI_ANNOTATION) == Get(actual.annotations, WI_ANNOTATION))
  }

  /** `merged` is the desired account after its references were merged with the actual ones. */
  ghost predicate MergedInto(desired: Account, actual: Account, merged: Account)
  {
    && Merged(desired.secrets, actual.secrets, merged.secrets)
    && Merged(desired.imagePullSecrets, actual.imagePullSecrets, merged.imagePullSecrets)
    && merged == desired.(secrets := merged.secrets, imagePullSecrets := merged.imagePullSecrets)
  }

  class Object {
    var labels: map<string, string>
    var annotations: map<string, string>
    var secrets: seq<ObjectRef>
    var imagePullSecrets: seq<ObjectRef>
    var rest: string

    function View(): (v: Account)
      reads this
    {
      Account(labels, annotations, secrets, imagePullSecrets, rest)
    }

    constructor (v: Account)
      ensures View() == v
    {
      labels, annotations, secrets := v.labels, v.annotations, v.secrets;
      imagePullSecrets, rest := v.imagePullSecrets, v.rest;
    }
  }

  method MergeRefs(desired: seq<ObjectRef>, actual: seq<ObjectRef>) returns (r: seq<ObjectRef>)
    ensures Merged(desired, actual, r)
  {
    RefLessIsOrder();
    var n, m := |desired|, |actual|;
    var a := new ObjectRef[n](i requires 0 <= i < n => desired[i]);
    var b := new ObjectRef[m](i requires 0 <= i < m => actual[i]);
    assert a[..] == desired && b[..] == actual;
    r := A.Merge(RefLess, a, b);
  }

  /** The desired object is overwritten with the merge; the actual one is left alone and,
      when anything differs, a changed copy of it is written to the cluster, which may fail. */
  method Reconcile(desired: Object, actual: Object, checkForWI: bool, updateOk: bool)
    returns (result: Object?, wrote: bool)
    requires desired != actual
    modifies desired
    ensures MergedInto(old(desired.View()), actual.View(), desired.View())
    ensures wrote <==> !UpToDate(desired.View(), actual.View(), checkForWI)
    ensures actual.View() == old(actual.View())
    ensures !wrote ==> result == actual
    ensures wrote && !updateOk ==> result == null
    ensures wrote && updateOk ==>
              result != null && fresh(result) && result.View() == desired.View().(rest := actual.rest)
    ensures updateOk ==>
              result != null && ReachesDesired(old(desired.View()), actual.View(), checkForWI, result.View())
  {
    desired.secrets := MergeRefs(desired.secrets, actual.secrets);
    desired.imagePullSecrets := MergeRefs(desired.imagePullSecrets, actual.imagePullSecrets);
    if UpToDate(desired.View(), actual.View(), checkForWI) {
      return actual, false;
    }
    var existing := new Object(actual.View());
    existing.labels := desired.labels;
    existing.annotations := desired.annotations;
    existing.secrets := desired.secrets;
    existing.imagePullSecrets := desired.imagePullSecrets;
    result, wrote := if updateOk then existing else null, true;
  }

  /** What a reconcile of `desired` leaves in the cluster where `actual` was. */
  ghost predicate Reconciled(desired: Account, actual: Account, checkForWI: bool, merged: Account, result: Account)
  {
    && MergedInto(desired, actual, merged)
    && result == if UpToDate(merged, actual, checkForWI) then actual else merged.(rest := actual.rest)
  }

  /** What a reconcile is for: the account in the cluster has the desired labels, references of
      every name that was desired or there before, those that were there as they were, if asked
      for the desired Workload Identity, and everything else as it was. */
  ghost predicate ReachesDesired(desired: Account, actual: Account, checkForWI: bool, result: Account)
  {
    && result.labels == desired.labels
    && Merged(desired.secrets, actual.secrets, result.secrets)
    && Merged(desired.imagePullSecrets, actual.imagePullSecrets, result.imagePullSecrets)
    && (checkForWI ==> Get(result.annotations, "iam.gke.io/gcp-service-account") ==
                       Get(desired.annotations, "iam.gke.io/gcp-service-account"))
    && (result.annotations == desired.annotations || result.annotations == actual.annotations)
    && result.rest == actual.rest
  }

  lemma ReconcileReachesDesired(desired: Account, actual: Account, checkForWI: bool, merged: Account, result: Account)
    requires Reconciled(desired, actual, checkForWI, merged, result)
    ensures ReachesDesired(desired, actual, checkForWI, result)
  {
  }

  /** Only what differs is a reason to write: an account that has it all already is left alone. */
  lemma NoNeedlessWrite(desired: Account, actual: Account, checkForWI: bool, merged: Account)
    requires MergedInto(desired, actual, merged)
    ensures UpToDate(merged, actual, checkForWI) <==> ReachesDesired(desired, actual, checkForWI, actual)
  {
    if ReachesDesired(desired, actual, checkForWI, actual) {
      SameMerge(desired.secrets, actual.secrets, merged.secrets);
      SameMerge(desired.imagePullSecrets, actual.imagePullSecrets, merged.imagePullSecrets);
    }
  }

  /** Merging into a list that is its own merge gives that list back. */
  lemma SameMerge(desired: seq<ObjectRef>, actual: seq<ObjectRef>, r: seq<ObjectRef>)
    requires Merged(desired, actual, actual) && Merged(desired, actual, r)
    ensures r == actual
  {
    RefLessIsOrder();
    assert A.Deduped(RefLess, actual);
  }

  lemma MergedAgain(desired: seq<ObjectRef>, again: seq<ObjectRef>, actual: seq<ObjectRef>, r: seq<ObjectRef>,
                    r': seq<ObjectRef>)
    requires Merged(desired, actual, r) && Merged(again, r, r')
    requires again == desired || again == r
    ensures r' == r
  {
    RefLessIsOrder();
    forall i, j | 0 <= i < j < |r| ensures !Equivalent(RefLess, r[i], r[j]) {
      assert RefLess(r[i], r[j]);
    }
    forall x | x in again ensures HasClass(RefLess, r, x) {
      var i :| 0 <= i < |again| && again[i] == x;
      assert Equivalent(RefLess, again[i], x);
      assert HasClass(RefLess, again, x);
    }
    A.MergeAbsorbs(RefLess, again, r);
  }

  /** One-step convergence: whatever the actual account held (duplicate references
      included), reconciling the same desired account again, as it was or as the first call
      left it, finds nothing to write. */
  lemma ReconcileConverges(desired: Account, actual: Account, checkForWI: bool, merged: Account, result: Account,
                           again: Account, merged': Account)
    requires Reconciled(desired, actual, checkForWI, merged, result)
    requires again == desired || again == merged
    requires MergedInto(again, result, merged')
    ensures UpToDate(merged', result, checkForWI)
  {
    MergedAgain(desired.secrets, again.secrets, actual.secrets, merged.secrets, merged'.secrets);
    MergedAgain(desired.imagePullSecrets, again.imagePullSecrets, actual.imagePullSecrets,
                merged.imagePullSecrets, merged'.imagePullSecrets);
  }

  // Runs: reconcilers working from possibly stale copies, and the cluster adding secrets.

  datatype Event =
    | Reconciling(read: nat, desired: Account, checkForWI: bool)
    | AddSecret(ref: ObjectRef)

  /** `history` holds every committed version. An update based on an old version is
      rejected as a conflict. */
  ghost predicate Next(history: seq<Account>, e: Event, history': seq<Account>)
  {
    && history != []
    && match e
       case AddSecret(ref) =>
         var last := history[|history| - 1];
         history' == history + [last.(secrets := last.secrets + [ref])]
       case Reconciling(k, desired, wi) =>
         && k < |history|
         && exists merged, result | Reconciled(desired, history[k], wi, merged, result) ::
              history' == if k == |history| - 1 && !UpToDate(merged, history[k], wi)
                          then history + [result] else history
  }

  ghost predicate Run(start: seq<Account>, events: seq<Event>, end: seq<Account>)
  {
    if events == [] then end == start
    else
      var n := |events| - 1;
      exists mid :: Run(start, events[..n], mid) && Next(mid, events[n], end)
  }

  ghost predicate HasSecret(a: Account, name: string)
  {
    exists i :: 0 <= i < |a.secrets| && a.secrets[i].name == name
  }

  lemma MergedKeepsSecret(desired: Account, actual: Account, merged: Account, name: string)
    requires MergedInto(desired, actual, merged) && HasSecret(actual, name)
    ensures HasSecret(merged, name)
  {
    RefLessIsOrder();
    var i :| 0 <= i < |actual.secrets| && actual.secrets[i].name == name;
    var x := actual.secrets[i];
    assert Equivalent(RefLess, actual.secrets[i], x);
    assert HasClass(RefLess, actual.secrets, x);
    assert HasClass(RefLess, merged.secrets, x);
    var j :| 0 <= j < |merged.secrets| && Equivalent(RefLess, merged.secrets[j], x);
    assert merged.secrets[j].name == name;
  }

  lemma NextKeepsSecrets(history: seq<Account>, e: Event, history': seq<Account>, name: string)
    requires Next(history, e, history') && HasSecret(history[|history| - 1], name)
    ensures history <= history' && HasSecret(history'[|history'| - 1], name)
  {
    var last := history[|history| - 1];
    match e
    case AddSecret(ref) =>
      var i :| 0 <= i < |last.secrets| && last.secrets[i].name == name;
      assert (last.secrets + [ref])[i].name == name;
    case Reconciling(k, desired, wi) =>
      if history' != history {
        var merged, result :| Reconciled(desired, history[k], wi, merged, result)
          && history' == if k == |history| - 1 && !UpToDate(merged, history[k], wi)
                         then history + [result] else history;
        MergedKeepsSecret(desired, last, merged, name);
      }
  }

  /** Conservation: over any run no secret reference that was ever committed is lost. */
  lemma {:induction false} SecretsNeverDisappear(start: seq<Account>, events: seq<Event>, end: seq<Account>,
                                                 name: string)
    requires start != [] && Run(start, events, end) && HasSecret(start[|start| - 1], name)
    ensures start <= end && HasSecret(end[|end| - 1], name)
  {
    if events != [] {
      var n := |events| - 1;
      var mid :| Run(start, events[..n], mid) && Next(mid, events[n], end);
      SecretsNeverDisappear(start, events[..n], mid, name);
      NextKeepsSecrets(mid, events[n], end, name);
    }
  }
}
