/** The states of a session (section 8.2.2 of RFC 4271), and the two for a peer being cleared. */
module PeerStatus {

  datatype Status = Idle | Connect | Active | OpenSent | OpenConfirm | Established | Clearing | Deleted
}
