/**
 * The ia64 mapping between kernel address-space identifiers (ASIDs) and
 * region identifiers (RIDs): every ASID owns RIDS_PER_ASID consecutive RIDs,
 * one per virtual region number.
 */
module Ia64Asid {

  /** Number of RIDs per kernel ASID. */
  const RIDS_PER_ASID: nat := 7
  /** Largest RID the kernel uses: 2^18 - 1. */
  const RID_MAX: nat := 262143
  /** Largest ASID the architecture allows, RID_MAX / RIDS_PER_ASID. */
  const ASID_MAX_ARCH: nat := RID_MAX / RIDS_PER_ASID

  /** `asid_t` is an unsigned 16-bit integer, `rid_t` an unsigned 32-bit one. */
  const ASID_T_LIMIT: nat := 0x1_0000
  const RID_T_LIMIT: nat := 0x1_0000_0000

  /** The first RID of `asid`, offset by the region number `vrn`. */
  function Asid2Rid(asid: nat, vrn: nat): (rid: nat)
    ensures vrn < RIDS_PER_ASID ==> Rid2Asid(rid) == asid
    ensures asid * RIDS_PER_ASID <= rid
  {
    asid * RIDS_PER_ASID + vrn
  }

  /** The ASID a RID belongs to (C unsigned division, which truncates). */
  function Rid2Asid(rid: nat): (asid: nat)
    ensures asid * RIDS_PER_ASID <= rid < (asid + 1) * RIDS_PER_ASID
  {
    rid / RIDS_PER_ASID
  }

  /** The region number a RID stands for inside its ASID's block. */
  function RidOffset(rid: nat): (vrn: nat)
    ensures vrn < RIDS_PER_ASID
    ensures Asid2Rid(Rid2Asid(rid), vrn) == rid
  {
    rid % RIDS_PER_ASID
  }

  lemma ConstantValues()
    ensures RID_MAX == 0x4_0000 - 1
    ensures ASID_MAX_ARCH == 37449
    ensures ASID_MAX_ARCH * RIDS_PER_ASID <= RID_MAX < (ASID_MAX_ARCH + 1) * RIDS_PER_ASID
  {
  }

  /** Going from an ASID and region number to a RID and back yields the ASID. */
  lemma RoundTrip(asid: nat, vrn: nat)
    requires vrn < RIDS_PER_ASID
    ensures Rid2Asid(Asid2Rid(asid, vrn)) == asid
    ensures RidOffset(Asid2Rid(asid, vrn)) == vrn
  {
    DivModUnique(Asid2Rid(asid, vrn), asid, vrn);
  }

  /** Different (ASID, region number) pairs never share a RID. */
  lemma Asid2RidInjective(a1: nat, v1: nat, a2: nat, v2: nat)
    requires v1 < RIDS_PER_ASID && v2 < RIDS_PER_ASID
    requires Asid2Rid(a1, v1) == Asid2Rid(a2, v2)
    ensures a1 == a2 && v1 == v2
  {
    RoundTrip(a1, v1);
    RoundTrip(a2, v2);
  }

  /** Every ASID below ASID_MAX_ARCH maps only to RIDs the kernel may use. */
  lemma Asid2RidBelowRidMax(asid: nat, vrn: nat)
    requires asid < ASID_MAX_ARCH && vrn < RIDS_PER_ASID
    ensures Asid2Rid(asid, vrn) <= RID_MAX
  {
    MulMonotone(asid, ASID_MAX_ARCH - 1, RIDS_PER_ASID);
  }

  /** The integer widths: ASID_MAX_ARCH is an `asid_t`, and any `asid_t`
      with a valid region number gives a RID that fits a `rid_t`. */
  lemma WidthsSuffice(asid: nat, vrn: nat)
    requires asid < ASID_T_LIMIT && vrn < RIDS_PER_ASID
    ensures ASID_MAX_ARCH < ASID_T_LIMIT
    ensures Asid2Rid(asid, vrn) < RID_T_LIMIT
  {
    MulMonotone(asid, ASID_T_LIMIT - 1, RIDS_PER_ASID);
  }

  /** A 16-bit ASID above ASID_MAX_ARCH yields a RID beyond RID_MAX: the
      `asid_t` range is wider than the RID space the kernel reserves. */
  lemma WideAsidExceedsRidMax()
    ensures ASID_MAX_ARCH + 1 < ASID_T_LIMIT
    ensures Asid2Rid(ASID_MAX_ARCH + 1, 0) > RID_MAX
  {
  }

  // Arithmetic helpers

  lemma DivModUnique(n: nat, q: nat, r: nat)
    requires r < RIDS_PER_ASID && n == q * RIDS_PER_ASID + r
    ensures n / RIDS_PER_ASID == q && n % RIDS_PER_ASID == r
  {
  }

  lemma MulMonotone(x: nat, y: nat, k: nat)
    requires x <= y
    ensures x * k <= y * k
  {
  }
}
