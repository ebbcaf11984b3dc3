/** Values that may be absent. */
module Options {

  datatype Option<+T> = None | Some(value: T)

  function Lookup<T>(m: map<string, T>, key: string): (r: Option<T>) {
    if key in m then Some(m[key]) else None
  }
}
