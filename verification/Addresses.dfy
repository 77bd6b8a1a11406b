/** Network addresses, shared by every module of the distributed server. */
module Addresses {

  // An `Addressable`: the ip text and the port in host order. Two of them are
  // the same endpoint exactly when both parts agree.
  datatype Addr = Addr(ip: string, port: nat)
}
