// Fixed-width integers as bounded mathematical integers, and addresses.
module Types {
  type byte = x: int | 0 <= x < 0x100
  type uint16 = x: int | 0 <= x < 0x1_0000
  type uint32 = x: int | 0 <= x < 0x1_0000_0000

  datatype Option<+T> = None | Some(value: T)

  // An IPv4 transport address. A missing address (the null pointer of the
  // library) stands for the local participant.
  datatype Address = Address(host: uint32, port: uint16)

  predicate SameAddress(a: Address, b: Option<Address>) {
    b == Some(a)
  }

  predicate SameHost(a: Address, b: Option<Address>) {
    b.Some? && b.value.host == a.host
  }

  function Wrap32(x: int): uint32 {
    x % 0x1_0000_0000
  }

  function Wrap16(x: int): uint16 {
    x % 0x1_0000
  }

  function RemoveAt<T>(s: seq<T>, i: nat): seq<T>
    requires i < |s|
  {
    s[..i] + s[i + 1..]
  }
}
