/** A value that may be absent, and maps read and written through it. */
module Options {
  datatype Option<+T> = None | Some(value: T)

  function At<V>(m: map<nat, V>, k: nat): Option<V> { if k in m then Some(m[k]) else None }

  function With<V>(m: map<nat, V>, k: nat, v: Option<V>): map<nat, V> { if v.Some? then m[k := v.value] else m - {k} }

  lemma AtIn<V>(m: map<nat, V>, k: nat)
    ensures At(m, k) == if k in m then Some(m[k]) else None
  {
  }

  lemma WithAt<V>(m: map<nat, V>, k: nat, v: Option<V>, j: nat)
    ensures At(With(m, k, v), j) == if j == k then v else At(m, j)
  {
  }
}
