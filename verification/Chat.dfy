/** The 1-to-1 chat wire format. */
module Chat {
  import opened Base

  /** A service invocation payload; its free-form JSON parameters carry no
      information for delivery and are not modelled. */
  datatype ServiceCall = ServiceCall(serviceId: string, callMethod: string, fragmentInfo: Option<string>)

  datatype ChatRequest = ChatRequest(
    from: string,
    content: Text,
    ts: i64,
    msgId: u64,
    ttl: i64,
    seqNo: u64,
    service: Option<ServiceCall>)

  /** The same request, perhaps sent at another time. */
  predicate Copy(m: ChatRequest, r: ChatRequest) {
    m == r.(ts := m.ts)
  }
}
