/** The ids that several parts share. */
module Ids {
  /** OUT ids by their textual form, which is what labels carry. */
  type OutId = string

  type TunnelId = nat
}
