/** Mesh addresses and the names of tree nodes. */
module Addresses {
  type Byte = n: nat | n < 256

  // A six-byte hardware address (src/device/types.hpp, mesh_addr_t).
  datatype Mac = Mac(b0: Byte, b1: Byte, b2: Byte, b3: Byte, b4: Byte, b5: Byte)

  // The address of a default-constructed mesh_addr_t; the daemon's own node carries it.
  const ZERO_MAC := Mac(0, 0, 0, 0, 0, 0)

  // A tree node is the daemon's own root or the node of a known address.
  datatype Id = Root | At(addr: Mac)

  datatype Option<+T> = None | Some(value: T)
}
