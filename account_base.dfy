/** The account bases a client can authenticate against. */
module AccountBases {
  import opened JavaLang

  /**
   * `AccountBase`: US or UK. Each selects an authentication URL; the URLs matter only to
   * the network call, which is outside the model.
   */
  datatype AccountBase = US | UK

  /**
   * An enum constant's `hashCode` is its identity hash, so the model takes it as a
   * parameter. The only thing known about it is that the two constants are distinct
   * objects; their hashes may or may not differ.
   */
  type AccountHash = AccountBase -> Int32
}
