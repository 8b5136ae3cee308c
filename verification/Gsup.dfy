/**
 What the proxy, the GSUP server and the location update have in common.
 */
module Gsup {
  import opened Octets

  type ImsiText = seq<Octet>
  type Name = seq<Octet>   // an IPA unit name, [] when empty

  /** struct osmo_cni_peer_id; only IPA names are supported as peers. */
  datatype Peer = NoPeer | Ipa(name: Name) | OtherPeer

  predicate IsEmpty(p: Peer) {
    p.NoPeer? || (p.Ipa? && p.name == [])
  }

  const GMM_CAUSE_IMSI_UNKNOWN := 0x02
  const GMM_CAUSE_GPRS_NOTALLOWED := 0x07
  const GMM_CAUSE_PLMN_NOTALLOWED := 0x0b
  const GMM_CAUSE_NET_FAIL := 0x11
  const GMM_CAUSE_MSGT_INCOMP_P_STATE := 0x62
  const GMM_CAUSE_PROTO_ERR_UNSPEC := 0x6f
  const GSM_CAUSE_NET_FAIL := 0x26
}
