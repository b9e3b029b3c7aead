/** Deleting a product with everything that hangs off it
    (server/src/admin/products/products.controller.ts), against the foreign keys of
    server/prisma/migrations/0001_init/migration.sql. */
module CascadeDelete {
  import opened Rows
  import opened Wrappers
  import opened LicenseService
  import opened LicenseApi
  import opened Runs

  type Id = int

  datatype VersionPolicyRow = VersionPolicyRow(product: string, info: string)
  datatype Adapter = Adapter(product: Option<string>, info: string)
  datatype ActivationLog = ActivationLog(license: Option<KeyHash>, device: Option<string>, info: string)
  datatype HeartbeatLog = HeartbeatLog(license: Option<KeyHash>, device: Option<string>, lease: Option<TokenId>, info: string)
  datatype UnbindRequest = UnbindRequest(license: KeyHash, device: string, info: string)
  datatype RiskEvent = RiskEvent(license: Option<KeyHash>, device: Option<string>, info: string)
  datatype OfflinePackage = OfflinePackage(license: KeyHash, device: Option<string>, info: string)

  datatype Tables = Tables(
    s: Db,
    versionPolicies: map<Id, VersionPolicyRow>,
    adapters: map<Id, Adapter>,
    activationLogs: map<Id, ActivationLog>,
    heartbeatLogs: map<Id, HeartbeatLog>,
    unbindRequests: map<Id, UnbindRequest>,
    riskEvents: map<Id, RiskEvent>,
    offlinePackages: map<Id, OfflinePackage>)

  predicate Refers<T(==)>(reference: Option<T>, ids: set<T>) {
    reference.Some? && reference.value in ids
  }

  /** ON DELETE SET NULL. */
  function Nulled<T(==)>(reference: Option<T>, ids: set<T>): Option<T> {
    if Refers(reference, ids) then None else reference
  }

  ghost predicate Holds<T>(reference: Option<T>, ids: set<T>) {
    reference.Some? ==> reference.value in ids
  }

  /** Every foreign key of the schema among these tables. */
  ghost predicate AllForeignKeys(t: Tables) {
    ForeignKeys(t.s) && ProductKeys(t) && LogKeys(t)
  }

  ghost predicate ProductKeys(t: Tables) {
    && (forall p | p in t.s.plans :: p.product in t.s.products)
    && (forall i | i in t.versionPolicies :: t.versionPolicies[i].product in t.s.products)
    && (forall i | i in t.adapters :: Holds(t.adapters[i].product, t.s.products.Keys))
  }

  ghost predicate LogKeys(t: Tables) {
    && (forall i | i in t.activationLogs ::
          Holds(t.activationLogs[i].license, t.s.licenses.Keys) && Holds(t.activationLogs[i].device, t.s.devices.Keys))
    && (forall i | i in t.heartbeatLogs ::
          && Holds(t.heartbeatLogs[i].license, t.s.licenses.Keys)
          && Holds(t.heartbeatLogs[i].device, t.s.devices.Keys)
          && Holds(t.heartbeatLogs[i].lease, t.s.leases.Keys))
    && (forall i | i in t.unbindRequests ::
          t.unbindRequests[i].license in t.s.licenses && t.unbindRequests[i].device in t.s.devices)
    && (forall i | i in t.riskEvents ::
          Holds(t.riskEvents[i].license, t.s.licenses.Keys) && Holds(t.riskEvents[i].device, t.s.devices.Keys))
    && (forall i | i in t.offlinePackages ::
          t.offlinePackages[i].license in t.s.licenses && Holds(t.offlinePackages[i].device, t.s.devices.Keys))
  }

  // ---------------------------------------------------------------------------
  // What a deletion should come to

  function LicensesOf(s: Db, p: string): set<KeyHash> {
    set h | h in s.licenses && s.licenses[h].product == p
  }

  function DevicesOf(s: Db, p: string): set<string> {
    set d | d in s.devices && s.devices[d].license in LicensesOf(s, p)
  }

  function LeasesOf(s: Db, p: string): set<TokenId> {
    set l | l in s.leases && s.leases[l].license in LicensesOf(s, p)
  }

  function PrunedDb(s: Db, p: string): Db {
    s.(products := s.products - {p},
       plans := map q | q in s.plans && q.product != p :: s.plans[q],
       licenses := s.licenses - LicensesOf(s, p),
       devices := s.devices - DevicesOf(s, p),
       leases := s.leases - LeasesOf(s, p),
       cardKeys := map k | k in s.cardKeys && s.cardKeys[k].product != p ::
         s.cardKeys[k].(license := Nulled(s.cardKeys[k].license, LicensesOf(s, p))))
  }

  /** Exactly the rows tied to the product go; a card key of another product that led
      to one of its licenses loses that link; nothing else changes. */
  function Pruned(t: Tables, p: string): Tables {
    var lics, devs, leases := LicensesOf(t.s, p), DevicesOf(t.s, p), LeasesOf(t.s, p);
    Tables(
      PrunedDb(t.s, p),
      map i | i in t.versionPolicies && t.versionPolicies[i].product != p :: t.versionPolicies[i],
      map i | i in t.adapters && t.adapters[i].product != Some(p) :: t.adapters[i],
      map i | i in t.activationLogs && !Refers(t.activationLogs[i].license, lics) && !Refers(t.activationLogs[i].device, devs) :: t.activationLogs[i],
      map i | i in t.heartbeatLogs
              && !Refers(t.heartbeatLogs[i].license, lics) && !Refers(t.heartbeatLogs[i].device, devs) && !Refers(t.heartbeatLogs[i].lease, leases)
        :: t.heartbeatLogs[i],
      map i | i in t.unbindRequests && t.unbindRequests[i].license !in lics && t.unbindRequests[i].device !in devs :: t.unbindRequests[i],
      map i | i in t.riskEvents && !Refers(t.riskEvents[i].license, lics) && !Refers(t.riskEvents[i].device, devs) :: t.riskEvents[i],
      map i | i in t.offlinePackages && t.offlinePackages[i].license !in lics && !Refers(t.offlinePackages[i].device, devs) :: t.offlinePackages[i])
  }

  /** Nothing of another product leans on a plan or a device of this one. */
  ghost predicate Removable(s: Db, p: string) {
    && p in s.products
    && (forall l | l in s.leases && s.leases[l].device in DevicesOf(s, p) :: s.leases[l].license in LicensesOf(s, p))
    && (forall h | h in s.licenses && s.licenses[h].plan.product == p :: s.licenses[h].product == p)
    && (forall k | k in s.cardKeys && s.cardKeys[k].plan.product == p :: s.cardKeys[k].product == p)
  }

  // ---------------------------------------------------------------------------
  // The statements: `deleteMany` against the referencing foreign keys. None is a
  // violated RESTRICT key, or a missing row.

  function DeleteHeartbeatLogs(t: Tables, lics: set<KeyHash>, devs: set<string>, leases: set<TokenId>): Tables {
    t.(heartbeatLogs := map i | i in t.heartbeatLogs
         && !(Refers(t.heartbeatLogs[i].license, lics) || Refers(t.heartbeatLogs[i].device, devs) || Refers(t.heartbeatLogs[i].lease, leases))
         :: t.heartbeatLogs[i])
  }

  function DeleteActivationLogs(t: Tables, lics: set<KeyHash>, devs: set<string>): Tables {
    t.(activationLogs := map i | i in t.activationLogs
         && !(Refers(t.activationLogs[i].license, lics) || Refers(t.activationLogs[i].device, devs)) :: t.activationLogs[i])
  }

  function DeleteUnbindRequests(t: Tables, lics: set<KeyHash>, devs: set<string>): Tables {
    t.(unbindRequests := map i | i in t.unbindRequests
         && !(t.unbindRequests[i].license in lics || t.unbindRequests[i].device in devs) :: t.unbindRequests[i])
  }

  function DeleteRiskEvents(t: Tables, lics: set<KeyHash>, devs: set<string>): Tables {
    t.(riskEvents := map i | i in t.riskEvents
         && !(Refers(t.riskEvents[i].license, lics) || Refers(t.riskEvents[i].device, devs)) :: t.riskEvents[i])
  }

  function DeleteOfflinePackages(t: Tables, lics: set<KeyHash>, devs: set<string>): Tables {
    t.(offlinePackages := map i | i in t.offlinePackages
         && !(t.offlinePackages[i].license in lics || Refers(t.offlinePackages[i].device, devs)) :: t.offlinePackages[i])
  }

  function DeleteLeases(t: Tables, ids: set<TokenId>): Tables {
    t.(s := t.s.(leases := t.s.leases - ids),
            heartbeatLogs := map i | i in t.heartbeatLogs :: t.heartbeatLogs[i].(lease := Nulled(t.heartbeatLogs[i].lease, ids)))
  }

  function DeleteDevices(t: Tables, ids: set<string>): Option<Tables> {
    if (exists l | l in t.s.leases :: t.s.leases[l].device in ids) || (exists i | i in t.unbindRequests :: t.unbindRequests[i].device in ids) then None
    else Some(t.(s := t.s.(devices := t.s.devices - ids),
                 activationLogs := map i | i in t.activationLogs :: t.activationLogs[i].(device := Nulled(t.activationLogs[i].device, ids)),
                 heartbeatLogs := map i | i in t.heartbeatLogs :: t.heartbeatLogs[i].(device := Nulled(t.heartbeatLogs[i].device, ids)),
                 riskEvents := map i | i in t.riskEvents :: t.riskEvents[i].(device := Nulled(t.riskEvents[i].device, ids)),
                 offlinePackages := map i | i in t.offlinePackages :: t.offlinePackages[i].(device := Nulled(t.offlinePackages[i].device, ids))))
  }

  function DeleteCardKeys(t: Tables, p: string): Tables {
    t.(s := t.s.(cardKeys := map k | k in t.s.cardKeys && t.s.cardKeys[k].product != p :: t.s.cardKeys[k]))
  }

  function DeleteLicenses(t: Tables, ids: set<KeyHash>): Option<Tables> {
    if (exists d | d in t.s.devices :: t.s.devices[d].license in ids) || (exists l | l in t.s.leases :: t.s.leases[l].license in ids)
       || (exists i | i in t.offlinePackages :: t.offlinePackages[i].license in ids)
       || (exists i | i in t.unbindRequests :: t.unbindRequests[i].license in ids) then None
    else Some(t.(s := t.s.(licenses := t.s.licenses - ids,
                           cardKeys := map k | k in t.s.cardKeys :: t.s.cardKeys[k].(license := Nulled(t.s.cardKeys[k].license, ids))),
                 activationLogs := map i | i in t.activationLogs :: t.activationLogs[i].(license := Nulled(t.activationLogs[i].license, ids)),
                 heartbeatLogs := map i | i in t.heartbeatLogs :: t.heartbeatLogs[i].(license := Nulled(t.heartbeatLogs[i].license, ids)),
                 riskEvents := map i | i in t.riskEvents :: t.riskEvents[i].(license := Nulled(t.riskEvents[i].license, ids))))
  }

  function DeleteVersionPolicies(t: Tables, p: string): Tables {
    t.(versionPolicies := map i | i in t.versionPolicies && t.versionPolicies[i].product != p :: t.versionPolicies[i])
  }

  function DeleteAdapters(t: Tables, p: string): Tables {
    t.(adapters := map i | i in t.adapters && t.adapters[i].product != Some(p) :: t.adapters[i])
  }

  function DeletePlans(t: Tables, p: string): Option<Tables> {
    if (exists h | h in t.s.licenses :: t.s.licenses[h].plan in t.s.plans && t.s.licenses[h].plan.product == p)
       || (exists k | k in t.s.cardKeys :: t.s.cardKeys[k].plan in t.s.plans && t.s.cardKeys[k].plan.product == p) then None
    else Some(t.(s := t.s.(plans := map q | q in t.s.plans && q.product != p :: t.s.plans[q])))
  }

  function DeleteProduct(t: Tables, p: string): Option<Tables> {
    if p !in t.s.products then None
    else if (exists q | q in t.s.plans :: q.product == p) || (exists h | h in t.s.licenses :: t.s.licenses[h].product == p)
            || (exists k | k in t.s.cardKeys :: t.s.cardKeys[k].product == p)
            || (exists i | i in t.versionPolicies :: t.versionPolicies[i].product == p) then None
    else Some(t.(s := t.s.(products := t.s.products - {p}),
                 adapters := map i | i in t.adapters :: t.adapters[i].(product := Nulled(t.adapters[i].product, {p}))))
  }

  // ---------------------------------------------------------------------------
  // What the order of the statements buys: once the dependents are gone, nothing is
  // left to null or to refuse but rows of other products

  ghost predicate NoDependents(t: Tables, lics: set<KeyHash>, devs: set<string>, leases: set<TokenId>) {
    && (forall i | i in t.heartbeatLogs ::
          && !Refers(t.heartbeatLogs[i].license, lics) && !Refers(t.heartbeatLogs[i].device, devs) && !Refers(t.heartbeatLogs[i].lease, leases))
    && (forall i | i in t.activationLogs :: !Refers(t.activationLogs[i].license, lics) && !Refers(t.activationLogs[i].device, devs))
    && (forall i | i in t.unbindRequests :: t.unbindRequests[i].license !in lics && t.unbindRequests[i].device !in devs)
    && (forall i | i in t.riskEvents :: !Refers(t.riskEvents[i].license, lics) && !Refers(t.riskEvents[i].device, devs))
    && (forall i | i in t.offlinePackages :: t.offlinePackages[i].license !in lics && !Refers(t.offlinePackages[i].device, devs))
  }

  lemma DependentsGone(t: Tables, lics: set<KeyHash>, devs: set<string>, leases: set<TokenId>)
    ensures var t1 := DeleteHeartbeatLogs(t, lics, devs, leases);
            var t2 := DeleteActivationLogs(t1, lics, devs);
            var t3 := DeleteUnbindRequests(t2, lics, devs);
            var t4 := DeleteRiskEvents(t3, lics, devs);
            var t5 := DeleteOfflinePackages(t4, lics, devs);
            NoDependents(t5, lics, devs, leases)
  { }

  lemma LeasesGo(t: Tables, lics: set<KeyHash>, devs: set<string>, ids: set<TokenId>)
    requires NoDependents(t, lics, devs, ids)
    ensures DeleteLeases(t, ids) == t.(s := t.s.(leases := t.s.leases - ids))
  {
    var t' := DeleteLeases(t, ids);
    forall i | i in t.heartbeatLogs ensures t'.heartbeatLogs[i] == t.heartbeatLogs[i] { }
    assert t'.heartbeatLogs == t.heartbeatLogs;
  }

  lemma DevicesGo(t: Tables, lics: set<KeyHash>, ids: set<string>, leases: set<TokenId>)
    requires NoDependents(t, lics, ids, leases)
    ensures DeleteDevices(t, ids) ==
              if exists l | l in t.s.leases :: t.s.leases[l].device in ids then None
              else Some(t.(s := t.s.(devices := t.s.devices - ids)))
  {
    if DeleteDevices(t, ids).Some? {
      var t' := DeleteDevices(t, ids).value;
      forall i | i in t.activationLogs ensures t'.activationLogs[i] == t.activationLogs[i] { }
      assert t'.activationLogs == t.activationLogs;
      forall i | i in t.heartbeatLogs ensures t'.heartbeatLogs[i] == t.heartbeatLogs[i] { }
      assert t'.heartbeatLogs == t.heartbeatLogs;
      forall i | i in t.riskEvents ensures t'.riskEvents[i] == t.riskEvents[i] { }
      assert t'.riskEvents == t.riskEvents;
      forall i | i in t.offlinePackages ensures t'.offlinePackages[i] == t.offlinePackages[i] { }
      assert t'.offlinePackages == t.offlinePackages;
    }
  }

  lemma LicensesGo(t: Tables, ids: set<KeyHash>, devs: set<string>, leases: set<TokenId>)
    requires NoDependents(t, ids, devs, leases)
    requires forall d | d in t.s.devices :: t.s.devices[d].license !in ids
    requires forall l | l in t.s.leases :: t.s.leases[l].license !in ids
    ensures DeleteLicenses(t, ids) ==
              Some(t.(s := t.s.(licenses := t.s.licenses - ids,
                                cardKeys := map k | k in t.s.cardKeys :: t.s.cardKeys[k].(license := Nulled(t.s.cardKeys[k].license, ids)))))
  {
    var t' := DeleteLicenses(t, ids).value;
    forall i | i in t.activationLogs ensures t'.activationLogs[i] == t.activationLogs[i] { }
      assert t'.activationLogs == t.activationLogs;
    forall i | i in t.heartbeatLogs ensures t'.heartbeatLogs[i] == t.heartbeatLogs[i] { }
      assert t'.heartbeatLogs == t.heartbeatLogs;
    forall i | i in t.riskEvents ensures t'.riskEvents[i] == t.riskEvents[i] { }
      assert t'.riskEvents == t.riskEvents;
  }

  lemma ProductGoes(t: Tables, p: string)
    requires forall q | q in t.s.plans :: q.product != p
    requires forall h | h in t.s.licenses :: t.s.licenses[h].product != p
    requires forall k | k in t.s.cardKeys :: t.s.cardKeys[k].product != p
    requires forall i | i in t.versionPolicies :: t.versionPolicies[i].product != p
    requires forall i | i in t.adapters :: t.adapters[i].product != Some(p)
    ensures DeleteProduct(t, p) == if p in t.s.products then Some(t.(s := t.s.(products := t.s.products - {p}))) else None
  {
    if p in t.s.products {
      var t' := DeleteProduct(t, p).value;
      forall i | i in t.adapters ensures t'.adapters[i] == t.adapters[i] { }
      assert t'.adapters == t.adapters;
    }
  }

  /** The tables once every dependent row is gone. */
  function Undepended(t: Tables, p: string): Tables {
    Pruned(t, p).(s := t.s.(leases := t.s.leases - LeasesOf(t.s, p)), versionPolicies := t.versionPolicies, adapters := t.adapters)
  }

  lemma UndependedHasNoDependents(t: Tables, p: string)
    ensures NoDependents(Undepended(t, p), LicensesOf(t.s, p), DevicesOf(t.s, p), LeasesOf(t.s, p))
  {
    hide PrunedDb, LicensesOf, DevicesOf, LeasesOf;
  }

  /** Where the two refusals come from. */
  lemma RefusedIff(s: Db, p: string)
    requires ForeignKeys(s)
    ensures Removable(s, p) <==>
              && p in s.products
              && (forall l | l in s.leases - LeasesOf(s, p) :: s.leases[l].device !in DevicesOf(s, p))
              && (forall h | h in s.licenses - LicensesOf(s, p) :: !(s.licenses[h].plan in s.plans && s.licenses[h].plan.product == p))
              && (forall k | k in s.cardKeys && s.cardKeys[k].product != p :: !(s.cardKeys[k].plan in s.plans && s.cardKeys[k].plan.product == p))
  { }

  // ---------------------------------------------------------------------------
  // The transaction

  class Store {
    var t: Tables

    method RemoveDependents(p: string, lics: set<KeyHash>, devs: set<string>, leases: set<TokenId>)
      requires lics == LicensesOf(t.s, p) && devs == DevicesOf(t.s, p) && leases == LeasesOf(t.s, p)
      modifies this
      ensures t == Undepended(old(t), p)
    {
      hide DeleteLeases, NoDependents, PrunedDb, LicensesOf, DevicesOf, LeasesOf;
      ghost var before := t;
      t := DeleteHeartbeatLogs(t, lics, devs, leases);
      t := DeleteActivationLogs(t, lics, devs);
      t := DeleteUnbindRequests(t, lics, devs);
      t := DeleteRiskEvents(t, lics, devs);
      t := DeleteOfflinePackages(t, lics, devs);
      DependentsGone(before, lics, devs, leases);
      LeasesGo(t, lics, devs, leases);
      t := DeleteLeases(t, leases);
    }

    method RemoveLicensed(p: string, lics: set<KeyHash>, devs: set<string>, leases: set<TokenId>, ghost before: Tables)
      returns (removed: bool)
      requires lics == LicensesOf(before.s, p) && devs == DevicesOf(before.s, p) && leases == LeasesOf(before.s, p)
      requires t == Undepended(before, p)
      modifies this
      ensures removed <==> forall l | l in before.s.leases - leases :: before.s.leases[l].device !in devs
      ensures removed ==> t == Unlicensed(before, p)
    {
      hide DeleteDevices, DeleteLicenses, NoDependents;
      UndependedHasNoDependents(before, p);
      DevicesGo(t, lics, devs, leases);
      var step := DeleteDevices(t, devs);
      if step.None? { return false; }
      t := step.value;
      t := DeleteCardKeys(t, p);
      SameLogs(Undepended(before, p), t, lics, devs, leases);
      LicensesGo(t, lics, devs, leases);
      t := DeleteLicenses(t, lics).value;
      t := DeleteVersionPolicies(t, p);
      t := DeleteAdapters(t, p);
      removed := true;
    }

    /** Succeeds exactly when nothing of another product leans on this one, leaves
        exactly the rows not tied to the product, and changes nothing when it fails. */
    method Remove(p: string) returns (removed: bool)
      requires AllForeignKeys(t)
      modifies this
      ensures removed <==> Removable(old(t).s, p)
      ensures t == if removed then Pruned(old(t), p) else old(t)
    {
      var before := t;
      RefusedIff(before.s, p);
      hide DeletePlans, DeleteProduct, AllForeignKeys, Removable, Undepended, LicensesOf, DevicesOf, LeasesOf;
      var lics := LicensesOf(t.s, p);
      var devs := DevicesOf(t.s, p);
      var leases := LeasesOf(t.s, p);
      RemoveDependents(p, lics, devs, leases);
      removed := RemoveLicensed(p, lics, devs, leases, before);
      if !removed {
        t := before;
        return;
      }
      PlansGo(before, p);
      var step := DeletePlans(t, p);
      if step.None? {
        t := before;
        return false;
      }
      t := step.value;
      OnlyOthersLeft(before, p);
      ProductGoes(t, p);
      step := DeleteProduct(t, p);
      if step.None? {
        t := before;
        return false;
      }
      t := step.value;
    }
  }

  /** The tables when only the plans and the product itself are left to delete. */
  function Unlicensed(t: Tables, p: string): Tables {
    Pruned(t, p).(s := PrunedDb(t.s, p).(products := t.s.products, plans := t.s.plans))
  }

  lemma PlansGo(t: Tables, p: string)
    ensures var u := Unlicensed(t, p);
            DeletePlans(u, p) ==
              if && (forall h | h in t.s.licenses - LicensesOf(t.s, p) :: !(t.s.licenses[h].plan in t.s.plans && t.s.licenses[h].plan.product == p))
                 && (forall k | k in t.s.cardKeys && t.s.cardKeys[k].product != p :: !(t.s.cardKeys[k].plan in t.s.plans && t.s.cardKeys[k].plan.product == p))
              then Some(Pruned(t, p).(s := PrunedDb(t.s, p).(products := t.s.products))) else None
  {
    var u := Unlicensed(t, p);
    forall k | k in t.s.cardKeys && t.s.cardKeys[k].product != p ensures k in u.s.cardKeys && u.s.cardKeys[k].plan == t.s.cardKeys[k].plan { }
    forall h | h in t.s.licenses - LicensesOf(t.s, p) ensures h in u.s.licenses && u.s.licenses[h] == t.s.licenses[h] { }
  }

  lemma OnlyOthersLeft(t: Tables, p: string)
    ensures forall h | h in Unlicensed(t, p).s.licenses :: Unlicensed(t, p).s.licenses[h].product != p
  { }

  lemma SameLogs(t: Tables, t': Tables, lics: set<KeyHash>, devs: set<string>, leases: set<TokenId>)
    requires NoDependents(t, lics, devs, leases)
    requires t' == t.(s := t'.s)
    ensures NoDependents(t', lics, devs, leases)
  { }

  // ---------------------------------------------------------------------------
  // What a deletion leaves

  lemma PrunedDbForeignKeys(s: Db, p: string)
    requires ForeignKeys(s) && Removable(s, p)
    ensures ForeignKeys(PrunedDb(s, p))
  { }

  /** Every foreign key of every table holds afterwards. */
  lemma PrunedForeignKeys(t: Tables, p: string)
    requires AllForeignKeys(t) && Removable(t.s, p)
    ensures AllForeignKeys(Pruned(t, p))
  {
    hide ForeignKeys, Removable, ProductKeys, LogKeys;
    PrunedDbForeignKeys(t.s, p);
    PrunedProductKeys(t, p);
    PrunedLogKeys(t, p);
  }

  lemma PrunedProductKeys(t: Tables, p: string)
    requires ProductKeys(t)
    ensures ProductKeys(Pruned(t, p))
  {
    hide LicensesOf, DevicesOf, LeasesOf;
  }

  lemma PrunedLogKeys(t: Tables, p: string)
    requires LogKeys(t)
    ensures LogKeys(Pruned(t, p))
  {
    hide LicensesOf, DevicesOf, LeasesOf;
  }

  /** The other products keep all their licenses, devices and leases, row by row. */
  lemma OtherProductsKept(s: Db, p: string, q: string)
    requires ForeignKeys(s) && Removable(s, p) && q != p
    ensures var s' := PrunedDb(s, p);
            && LicensesOf(s', q) == LicensesOf(s, q) && DevicesOf(s', q) == DevicesOf(s, q) && LeasesOf(s', q) == LeasesOf(s, q)
            && (forall h | h in LicensesOf(s, q) :: s'.licenses[h] == s.licenses[h] && s'.plans[s.licenses[h].plan] == s.plans[s.licenses[h].plan])
            && (forall d | d in DevicesOf(s, q) :: s'.devices[d] == s.devices[d])
            && (forall l | l in LeasesOf(s, q) :: s'.leases[l] == s.leases[l])
  {
    var s' := PrunedDb(s, p);
    assert forall h | h in LicensesOf(s, q) :: h !in LicensesOf(s, p) && h in s'.licenses;
    assert LicensesOf(s', q) == LicensesOf(s, q);
    hide LicensesOf, Removable;
    assert DevicesOf(s', q) == DevicesOf(s, q);
    assert LeasesOf(s', q) == LeasesOf(s, q);
  }

  /** Every token of the deleted product is refused; every other token gets the very
      answer it would have got without the deletion. */
  lemma VerifyAfterDelete(s: Db, p: string, token: Token, q: string, d: string, v: string)
    requires Inv(s) && Removable(s, p)
    ensures var r' := Verify(PrunedDb(s, p), token, q, d, v).1;
            if token.jti in LeasesOf(s, p) then r' == Err(LeaseInvalid) else r' == Verify(s, token, q, d, v).1
  {
    hide OneActiveLease, SignedMatchLeases, ForeignKeys, EnsureValid, EnsureAllowed, FeatureFlags, PrunedDb;
    PrunedDbRows(s, p);
    InvForeignKeys(s);
    var s' := PrunedDb(s, p);
    if token.jti in s.leases && token.jti !in LeasesOf(s, p) {
      var h := s.leases[token.jti].license;
      LicenseAfterDelete(s, p, h, q);
      if EnsureValid(s, Some(h), q).Ok? { AllowedAfterDelete(s, p, q, v); }
    }
  }

  lemma PrunedDbRows(s: Db, p: string)
    requires Inv(s) && Removable(s, p)
    ensures var s' := PrunedDb(s, p);
            && s'.now == s.now && s'.signed == s.signed
            && s'.leases == s.leases - LeasesOf(s, p)
            && (forall d | d in s'.devices :: d in s.devices && s'.devices[d] == s.devices[d])
            && (forall l | l in s'.leases :: s.leases[l].device in s'.devices)
  {
    hide OneActiveLease, SignedMatchLeases;
  }

  lemma LicenseAfterDelete(s: Db, p: string, h: KeyHash, q: string)
    requires ForeignKeys(s) && Removable(s, p) && h in s.licenses && h !in LicensesOf(s, p)
    ensures var s' := PrunedDb(s, p);
            && EnsureValid(s', Some(h), q) == EnsureValid(s, Some(h), q)
            && Known(s, h) && Known(s', h) && FeatureFlags(s', h) == FeatureFlags(s, h) && s'.licenses[h] == s.licenses[h]
            && (EnsureValid(s, Some(h), q).Ok? ==> q != p)
  {
    hide DevicesOf, LeasesOf;
    assert s.licenses[h].product != p;
  }

  lemma AllowedAfterDelete(s: Db, p: string, q: string, v: string)
    requires q != p
    ensures EnsureAllowed(PrunedDb(s, p), q, v) == EnsureAllowed(s, q, v)
  {
    hide LicensesOf, DevicesOf, LeasesOf;
  }

  // ---------------------------------------------------------------------------
  // The runs of the API keep every product removable

  ghost predicate OwnPlans(s: Db) {
    && (forall h | h in s.licenses :: s.licenses[h].plan.product == s.licenses[h].product)
    && (forall k | k in s.cardKeys :: s.cardKeys[k].plan.product == s.cardKeys[k].product)
  }

  /** The admin who adds a license or a card key picks a plan of its product. */
  predicate OwnPlanEvent(e: Event) {
    match e
    case AddLicense(_, row) => row.plan.product == row.product
    case AddCardKey(_, card) => card.plan.product == card.product
    case _ => true
  }

  lemma ValidateLicenseKeepsOwnPlans(s: Db, product: string, key: string)
    requires OwnPlans(s)
    ensures OwnPlans(ValidateLicense(s, product, key).0)
  {
    hide EnsureValid, CardProblem, PlanDurationMs;
  }

  lemma ActivateKeepsOwnPlans(s: Db, product: string, key: string, d: string, v: string, c: Choices)
    requires OwnPlans(s)
    ensures OwnPlans(Activate(s, product, key, d, v, c).0)
  {
    hide ValidateLicense, Bind, Renew, FeatureFlags, OwnPlans;
    ValidateLicenseKeepsOwnPlans(s, product, key);
    var (s1, r1) := ValidateLicense(s, product, key);
    if r1.Ok? {
      var (s2, r2) := Bind(s1, r1.value, d, v, c.kicked);
      SameCatalog(s1, s2);
      if r2.Ok? {
        var s3 := Renew(s2, r1.value, d, v, c.issue).0;
        SameCatalog(s1, s3);
        StampKeepsOwnPlans(s3, r1.value);
      }
    }
  }

  lemma SameCatalog(s: Db, s': Db)
    requires OwnPlans(s) && s'.licenses == s.licenses && s'.cardKeys == s.cardKeys
    ensures OwnPlans(s')
  { }

  lemma StampKeepsOwnPlans(s: Db, lic: KeyHash)
    requires OwnPlans(s) && lic in s.licenses
    ensures OwnPlans(StampActivation(s, lic))
  { }

  lemma StepKeepsOwnPlans(s: Db, e: Event)
    requires OwnPlans(s) && OwnPlanEvent(e)
    ensures OwnPlans(Step(s, e))
  {
    hide Activate, Verify, Heartbeat, ValidateLicense;
    match e
    case ActivateCall(product, key, d, v, c) => ActivateKeepsOwnPlans(s, product, key, d, v, c);
    case DeactivateCall(product, key, d) => ValidateLicenseKeepsOwnPlans(s, product, key);
    case _ =>
  }

  /** After any run every product can be deleted, provided admins kept to plans of the
      right product: the leases never stand in the way. */
  lemma {:induction false} RunKeepsRemovable(s: Db, es: seq<Event>, p: string)
    requires Inv(s) && OwnPlans(s) && ValidRun(s, es)
    requires forall i | 0 <= i < |es| :: OwnPlanEvent(es[i])
    ensures Removable(Run(s, es), p) <==> p in Run(s, es).products
    decreases |es|
  {
    if es == [] {
      OwnPlansRemovable(s, p);
    } else {
      hide Inv, Step, Enabled, OwnPlans, Removable;
      StepKeepsInv(s, es[0]);
      assert OwnPlanEvent(es[0]);
      StepKeepsOwnPlans(s, es[0]);
      RunKeepsRemovable(Step(s, es[0]), es[1..], p);
    }
  }

  lemma OwnPlansRemovable(s: Db, p: string)
    requires Inv(s) && OwnPlans(s)
    ensures Removable(s, p) <==> p in s.products
  { }

  /** One license or card key on a plan of another product is enough to block that
      product: adding a row keeps exactly those products removable that it does not
      borrow a plan from. */
  lemma AddingKeepsRemovableIff(s: Db, e: Event, p: string)
    requires ForeignKeys(s) && (e.AddLicense? || e.AddCardKey?) && Step(s, e) != s
    ensures Removable(Step(s, e), p) <==>
              Removable(s, p) && (Borrowed(e) == p ==> OwnPlanEvent(e))
  {
    hide Activate, Heartbeat, Verify, Deactivate;
    match e
    case AddLicense(h, row) => AddedLicense(s, h, row, p);
    case AddCardKey(k, card) => AddedCardKey(s, k, card, p);
    case _ =>
  }

  lemma AddedLicense(s: Db, h: KeyHash, row: License, p: string)
    requires ForeignKeys(s) && h !in s.licenses
    ensures Removable(s.(licenses := s.licenses[h := row]), p) <==>
              Removable(s, p) && (row.plan.product == p ==> row.product == p)
  {
    var s' := s.(licenses := s.licenses[h := row]);
    assert DevicesOf(s', p) == DevicesOf(s, p);
    assert forall l | l in s.leases :: s.leases[l].license in LicensesOf(s', p) <==> s.leases[l].license in LicensesOf(s, p);
    hide ForeignKeys, DevicesOf, LicensesOf;
    assert s'.licenses[h] == row && forall k | k in s.licenses :: k in s'.licenses && s'.licenses[k] == s.licenses[k];
  }

  lemma AddedCardKey(s: Db, key: string, card: CardKey, p: string)
    requires key !in s.cardKeys
    ensures Removable(s.(cardKeys := s.cardKeys[key := card]), p) <==>
              Removable(s, p) && (card.plan.product == p ==> card.product == p)
  {
    var s' := s.(cardKeys := s.cardKeys[key := card]);
    assert LicensesOf(s', p) == LicensesOf(s, p) && DevicesOf(s', p) == DevicesOf(s, p);
    hide DevicesOf, LicensesOf;
    assert s'.cardKeys[key] == card && forall k | k in s.cardKeys :: k in s'.cardKeys && s'.cardKeys[k] == s.cardKeys[k];
  }

  /** The product whose plan the added row uses. */
  function Borrowed(e: Event): string
    requires e.AddLicense? || e.AddCardKey?
  {
    if e.AddLicense? then e.row.plan.product else e.card.plan.product
  }

  // ---------------------------------------------------------------------------
  // Which rows go, read off each row

  predicate LicenseTied(s: Db, p: string, lic: KeyHash) {
    lic in s.licenses && s.licenses[lic].product == p
  }

  predicate DeviceTied(s: Db, p: string, d: string) {
    d in s.devices && LicenseTied(s, p, s.devices[d].license)
  }

  predicate LeaseTied(s: Db, p: string, l: TokenId) {
    l in s.leases && LicenseTied(s, p, s.leases[l].license)
  }

  predicate LinkTied(s: Db, p: string, lic: Option<KeyHash>, d: Option<string>) {
    (lic.Some? && LicenseTied(s, p, lic.value)) || (d.Some? && DeviceTied(s, p, d.value))
  }

  lemma TiedIsListed(s: Db, p: string)
    ensures forall lic :: lic in LicensesOf(s, p) <==> LicenseTied(s, p, lic)
    ensures forall d :: d in DevicesOf(s, p) <==> DeviceTied(s, p, d)
    ensures forall l :: l in LeasesOf(s, p) <==> LeaseTied(s, p, l)
  { }

  /** In the tables of the protocol a row goes exactly if it is the product or is tied
      to it. */
  lemma RowsThatStay(s: Db, p: string)
    ensures var s' := PrunedDb(s, p);
            && (forall q :: q in s'.products <==> q in s.products && q != p)
            && (forall q :: q in s'.plans <==> q in s.plans && q.product != p)
            && (forall h :: h in s'.licenses <==> h in s.licenses && !LicenseTied(s, p, h))
            && (forall d :: d in s'.devices <==> d in s.devices && !DeviceTied(s, p, d))
            && (forall l :: l in s'.leases <==> l in s.leases && !LeaseTied(s, p, l))
            && (forall k :: k in s'.cardKeys <==> k in s.cardKeys && s.cardKeys[k].product != p)
  {
    TiedIsListed(s, p);
    hide LicensesOf, DevicesOf, LeasesOf, LicenseTied, DeviceTied, LeaseTied;
  }

  /** A row that stays is unchanged, but for a card key's link to a lost license. */
  lemma RowsUnchanged(s: Db, p: string)
    ensures var s' := PrunedDb(s, p);
            && s'.signed == s.signed && s'.now == s.now && s'.ttlMs == s.ttlMs
            && (forall q | q in s'.products :: q in s.products && s'.products[q] == s.products[q])
            && (forall q | q in s'.plans :: q in s.plans && s'.plans[q] == s.plans[q])
            && (forall h | h in s'.licenses :: h in s.licenses && s'.licenses[h] == s.licenses[h])
            && (forall d | d in s'.devices :: d in s.devices && s'.devices[d] == s.devices[d])
            && (forall l | l in s'.leases :: l in s.leases && s'.leases[l] == s.leases[l])
            && (forall k | k in s'.cardKeys :: k in s.cardKeys && s'.cardKeys[k] == Unlinked(s, p, s.cardKeys[k]))
  {
    TiedIsListed(s, p);
    hide LicensesOf, DevicesOf, LeasesOf, LicenseTied;
  }

  function Unlinked(s: Db, p: string, card: CardKey): CardKey {
    if card.license.Some? && LicenseTied(s, p, card.license.value) then card.(license := None) else card
  }

  /** The same for policies, adapters, logs, requests, events and packages; none of
      those that stay is changed. */
  lemma LogsThatStay(t: Tables, p: string)
    ensures var t' := Pruned(t, p);
            && (forall i :: i in t'.versionPolicies <==> i in t.versionPolicies && t.versionPolicies[i].product != p)
            && (forall i :: i in t'.adapters <==> i in t.adapters && t.adapters[i].product != Some(p))
            && (forall i :: i in t'.activationLogs <==>
                  i in t.activationLogs && !LinkTied(t.s, p, t.activationLogs[i].license, t.activationLogs[i].device))
            && (forall i :: i in t'.heartbeatLogs <==>
                  i in t.heartbeatLogs && !LinkTied(t.s, p, t.heartbeatLogs[i].license, t.heartbeatLogs[i].device)
                  && !(t.heartbeatLogs[i].lease.Some? && LeaseTied(t.s, p, t.heartbeatLogs[i].lease.value)))
            && (forall i :: i in t'.unbindRequests <==>
                  i in t.unbindRequests && !LinkTied(t.s, p, Some(t.unbindRequests[i].license), Some(t.unbindRequests[i].device)))
            && (forall i :: i in t'.riskEvents <==>
                  i in t.riskEvents && !LinkTied(t.s, p, t.riskEvents[i].license, t.riskEvents[i].device))
            && (forall i :: i in t'.offlinePackages <==>
                  i in t.offlinePackages && !LinkTied(t.s, p, Some(t.offlinePackages[i].license), t.offlinePackages[i].device))
    ensures var t' := Pruned(t, p);
            && (forall i | i in t'.versionPolicies :: t'.versionPolicies[i] == t.versionPolicies[i])
            && (forall i | i in t'.adapters :: t'.adapters[i] == t.adapters[i])
            && (forall i | i in t'.activationLogs :: t'.activationLogs[i] == t.activationLogs[i])
            && (forall i | i in t'.heartbeatLogs :: t'.heartbeatLogs[i] == t.heartbeatLogs[i])
            && (forall i | i in t'.unbindRequests :: t'.unbindRequests[i] == t.unbindRequests[i])
            && (forall i | i in t'.riskEvents :: t'.riskEvents[i] == t.riskEvents[i])
            && (forall i | i in t'.offlinePackages :: t'.offlinePackages[i] == t.offlinePackages[i])
  {
    TiedIsListed(t.s, p);
    hide LicensesOf, DevicesOf, LeasesOf, LicenseTied, DeviceTied, LeaseTied, PrunedDb;
  }
}
