/**
 * The work queue of a session (`crearListaElementosATratar`): the
 * identifiers `inicio .. inicio + limite - 1` in ascending order, minus
 * those already treated in the loaded dataset.
 */
module WorkQueue {

  predicate Increasing(s: seq<int>)
  {
    forall a, b :: 0 <= a < b < |s| ==> s[a] < s[b]
  }

  /**
   * `[x for x in range(inicio, inicio + limite) if x not in tratados]`.
   * Only membership in `tratados` is used, so it is a set here.
   */
  function Build(tratados: set<int>, inicio: int, limite: int): (lista: seq<int>)
    decreases if limite > 0 then limite else 0
    ensures forall k :: 0 <= k < |lista| ==> inicio <= lista[k] < inicio + limite && lista[k] !in tratados
    ensures forall x :: inicio <= x < inicio + limite && x !in tratados ==> x in lista
    ensures Increasing(lista)
    ensures limite <= 0 ==> lista == []
    ensures |lista| <= if limite > 0 then limite else 0
  {
    if limite <= 0 then []
    else
      var rest := Build(tratados, inicio + 1, limite - 1);
      if inicio in tratados then rest else [inicio] + rest
  }

  /** A queue built from an empty treated set is the whole range. */
  lemma {:induction false} BuildUntreated(inicio: int, limite: int)
    ensures |Build({}, inicio, limite)| == if limite > 0 then limite else 0
    ensures forall k :: 0 <= k < |Build({}, inicio, limite)| ==> Build({}, inicio, limite)[k] == inicio + k
    decreases if limite > 0 then limite else 0
  {
    if limite > 0 {
      BuildUntreated(inicio + 1, limite - 1);
    }
  }
}
