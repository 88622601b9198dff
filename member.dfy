/** A cluster participant as the local node records it. */
module Members {
  import opened Wire
  import opened Utf8

  datatype MemberState = Alive | Suspect | Dead

  /** `inc` is the last known incarnation number. */
  datatype Member = Member(name: Text, addr: SocketAddr, state: MemberState, inc: U32)
}
