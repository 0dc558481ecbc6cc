/** Names of namespaced objects. */
module Objects {
  datatype Key = Key(ns: string, name: string)
}
