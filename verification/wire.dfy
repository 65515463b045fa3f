/** Leases as they travel between server and client. */
module Wire {
  import opened Arithmetic
  import opened Store

  /** A lease with its times in whole seconds. */
  datatype WireLease = WireLease(expiryTime: int, refreshInterval: int, capacity: real)

  /** The expiry goes out in whole seconds, never later than it is. */
  function OnWire(lease: Lease): WireLease {
    WireLease(lease.expiry / Seconds(1), lease.refreshInterval / Seconds(1), lease.has)
  }

  lemma WireExpiryIsEarlier(lease: Lease)
    ensures lease.expiry - Seconds(1) < Seconds(OnWire(lease).expiryTime) <= lease.expiry
  {
  }
}
