/**
 Identifiers under which resources are queued for reconciliation: tenant and resource id joined by an
 underscore, and taken apart again by the reconcilers.
 */
module ReconcilerId {
  import opened Strings

  function NewReconcilerID(tenantID: string, resourceID: string): string {
    tenantID + "_" + resourceID
  }

  function GetTenantID(id: string): string {
    Split(id, '_')[0]
  }

  function GetResourceID(id: string): string
    requires '_' in id
  {
    Split(id, '_')[1]
  }

  /** The reconcilers get back the pair they were queued for exactly when neither part has an underscore,
      so resource ids may only be separated by other characters, as in "host-1234". */
  lemma PairComesBackIff(tenantID: string, resourceID: string)
    ensures var id := NewReconcilerID(tenantID, resourceID);
      && '_' in id
      && (GetTenantID(id) == tenantID && GetResourceID(id) == resourceID <==> '_' !in tenantID && '_' !in resourceID)
      && (GetTenantID(id) == tenantID <==> '_' !in tenantID)
  {
    SplitConcat(tenantID, resourceID, '_');
    var id := NewReconcilerID(tenantID, resourceID);
    assert id == tenantID + ['_'] + resourceID && id[|tenantID|] == '_';
    var t, r := Split(tenantID, '_'), Split(resourceID, '_');
    SplitJoins(tenantID, '_');
    SplitJoins(resourceID, '_');
    assert Split(id, '_') == t + r && (t + r)[0] == t[0];
    if '_' !in tenantID {
      assert |t| == 1 && (t + r)[1] == r[0];
    }
  }

  /** Different resources are never queued under the same identifier if their parts have no underscore. */
  lemma IdentifiersAreDistinct(t1: string, r1: string, t2: string, r2: string)
    requires '_' !in t1 && '_' !in r1 && '_' !in t2 && '_' !in r2
    requires NewReconcilerID(t1, r1) == NewReconcilerID(t2, r2)
    ensures t1 == t2 && r1 == r2
  {
    PairComesBackIff(t1, r1);
    PairComesBackIff(t2, r2);
  }
}
