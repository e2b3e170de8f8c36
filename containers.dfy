/** The five containers of containers.cpp (and their copy in
    src/containers.cpp): a `std::list` of entities with a primary key, never
    holding two elements with the same key. All five run the same four
    loops, so they are one generic table over a key function. */
module Containers {
  import opened Wrappers
  import opened Entidades

  /** The index of the first element of `s` whose key is `k`. */
  function IndiceDe<T, K(==)>(s: seq<T>, chave: T -> K, k: K): (r: Option<nat>)
    ensures r.Some? ==> r.value < |s| && chave(s[r.value]) == k
    ensures r.Some? ==> forall j :: 0 <= j < r.value ==> chave(s[j]) != k
    ensures r.None? <==> forall j :: 0 <= j < |s| ==> chave(s[j]) != k
  {
    if |s| == 0 then None
    else if chave(s[0]) == k then Some(0)
    else match IndiceDe(s[1..], chave, k)
      case None => None
      case Some(i) => Some(i + 1)
  }

  /** No two elements share a key. */
  predicate ChavesDistintas<T, K(==)>(s: seq<T>, chave: T -> K)
  {
    forall i, j :: 0 <= i < j < |s| ==> chave(s[i]) != chave(s[j])
  }

  /** `s` without its element at `i`; the others keep their order. */
  function SemIndice<T>(s: seq<T>, i: nat): (r: seq<T>)
    requires i < |s|
    ensures |r| == |s| - 1
    ensures forall j :: 0 <= j < i ==> r[j] == s[j]
    ensures forall j :: i <= j < |r| ==> r[j] == s[j + 1]
  {
    s[..i] + s[i + 1..]
  }

  class Tabela<T, K(==)> {
    /** The primary key: Codigo, EMAIL or Numero, compared by value. */
    const chave: T -> K
    var itens: seq<T>

    constructor (chave: T -> K)
      ensures this.chave == chave && itens == []
    {
      this.chave := chave;
      itens := [];
    }

    /** Rejects an element whose key is already stored; otherwise appends
        it. */
    method Incluir(x: T) returns (incluido: bool)
      modifies this
      ensures incluido <==> IndiceDe(old(itens), chave, chave(x)).None?
      ensures itens == if incluido then old(itens) + [x] else old(itens)
    {
      for i := 0 to |itens|
        invariant forall j :: 0 <= j < i ==> chave(itens[j]) != chave(x)
      {
        if chave(itens[i]) == chave(x) {
          return false;
        }
      }
      itens := itens + [x];
      return true;
    }

    /** Erases the first element with key `k`. */
    method Remover(k: K) returns (removido: bool)
      modifies this
      ensures removido <==> IndiceDe(old(itens), chave, k).Some?
      ensures itens ==
        if removido then SemIndice(old(itens), IndiceDe(old(itens), chave, k).value) else old(itens)
    {
      for i := 0 to |itens|
        invariant forall j :: 0 <= j < i ==> chave(itens[j]) != k
      {
        if chave(itens[i]) == k {
          PrimeiraOcorrencia(itens, chave, k, i);
          itens := itens[..i] + itens[i + 1..];
          return true;
        }
      }
      return false;
    }

    /** The element stored under the key of `sonda`, or `sonda` itself when
        there is none: what `*ptr` holds after the C++ call. The table is
        not changed. */
    method Pesquisar(sonda: T) returns (achou: bool, r: T)
      ensures achou <==> IndiceDe(itens, chave, chave(sonda)).Some?
      ensures r == if achou then itens[IndiceDe(itens, chave, chave(sonda)).value] else sonda
    {
      for i := 0 to |itens|
        invariant forall j :: 0 <= j < i ==> chave(itens[j]) != chave(sonda)
      {
        if chave(itens[i]) == chave(sonda) {
          PrimeiraOcorrencia(itens, chave, chave(sonda), i);
          return true, itens[i];
        }
      }
      return false, sonda;
    }

    /** Overwrites the first element with the key of `x`, in place. */
    method Atualizar(x: T) returns (atualizado: bool)
      modifies this
      ensures atualizado <==> IndiceDe(old(itens), chave, chave(x)).Some?
      ensures itens ==
        if atualizado then old(itens)[IndiceDe(old(itens), chave, chave(x)).value := x] else old(itens)
    {
      for i := 0 to |itens|
        invariant forall j :: 0 <= j < i ==> chave(itens[j]) != chave(x)
      {
        if chave(itens[i]) == chave(x) {
          PrimeiraOcorrencia(itens, chave, chave(x), i);
          itens := itens[i := x];
          return true;
        }
      }
      return false;
    }

    /** A copy of the list (ContainerReserva::listar). */
    method Listar() returns (l: seq<T>)
      ensures l == itens
    {
      l := itens;
    }
  }

  type ContainerGerente = Tabela<Gerente, string>
  type ContainerHospede = Tabela<Hospede, string>
  type ContainerHotel = Tabela<Hotel, string>
  type ContainerQuarto = Tabela<Quarto, int>
  type ContainerReserva = Tabela<Reserva, string>

  /** The first index holding key `k` is what `IndiceDe` returns. */
  lemma PrimeiraOcorrencia<T, K>(s: seq<T>, chave: T -> K, k: K, i: nat)
    requires i < |s| && chave(s[i]) == k
    requires forall j :: 0 <= j < i ==> chave(s[j]) != k
    ensures IndiceDe(s, chave, k) == Some(i)
  {
  }

  /** With distinct keys, looking an element's key up finds that element. */
  lemma {:induction false} ChaveIdentifica<T, K>(s: seq<T>, chave: T -> K, i: nat)
    requires ChavesDistintas(s, chave) && i < |s|
    ensures IndiceDe(s, chave, chave(s[i])) == Some(i)
  {
    PrimeiraOcorrencia(s, chave, chave(s[i]), i);
  }

  /** `incluir` keeps the keys distinct, and the new element is then found
      under its key. */
  lemma IncluirPreserva<T, K>(s: seq<T>, chave: T -> K, x: T)
    requires ChavesDistintas(s, chave) && IndiceDe(s, chave, chave(x)).None?
    ensures ChavesDistintas(s + [x], chave)
    ensures IndiceDe(s + [x], chave, chave(x)) == Some(|s|)
  {
    var t := s + [x];
    forall i, j | 0 <= i < j < |t| ensures chave(t[i]) != chave(t[j]) {
      if j == |s| {
        assert t[i] == s[i];
      } else {
        assert t[i] == s[i] && t[j] == s[j];
      }
    }
    ChaveIdentifica(t, chave, |s|);
  }

  /** `remover` keeps the keys distinct; afterwards the removed key is
      absent and every other key is present exactly when it was before. */
  lemma RemoverPreserva<T, K>(s: seq<T>, chave: T -> K, i: nat)
    requires ChavesDistintas(s, chave) && i < |s|
    ensures ChavesDistintas(SemIndice(s, i), chave)
    ensures IndiceDe(SemIndice(s, i), chave, chave(s[i])).None?
    ensures forall k :: k != chave(s[i]) ==>
      (IndiceDe(SemIndice(s, i), chave, k).Some? <==> IndiceDe(s, chave, k).Some?)
  {
    var t := SemIndice(s, i);
    forall a, b | 0 <= a < b < |t| ensures chave(t[a]) != chave(t[b]) {
      var a', b' := if a < i then a else a + 1, if b < i then b else b + 1;
      assert t[a] == s[a'] && t[b] == s[b'];
    }
    forall j | 0 <= j < |t| ensures chave(t[j]) != chave(s[i]) {
      if j < i {
        assert t[j] == s[j];
      } else {
        assert t[j] == s[j + 1];
      }
    }
    forall k | k != chave(s[i])
      ensures IndiceDe(t, chave, k).Some? <==> IndiceDe(s, chave, k).Some?
    {
      var r := IndiceDe(s, chave, k);
      if r.Some? {
        var j := r.value;
        assert j != i;
        if j < i {
          assert t[j] == s[j];
        } else {
          assert t[j - 1] == s[j];
        }
      }
    }
  }

  /** `atualizar` with the stored key keeps the keys distinct, and the new
      element is then found at the same place. */
  lemma AtualizarPreserva<T, K>(s: seq<T>, chave: T -> K, i: nat, x: T)
    requires ChavesDistintas(s, chave) && i < |s| && chave(s[i]) == chave(x)
    ensures ChavesDistintas(s[i := x], chave)
    ensures IndiceDe(s[i := x], chave, chave(x)) == Some(i)
  {
    var t := s[i := x];
    assert forall j :: 0 <= j < |t| ==> chave(t[j]) == chave(s[j]);
    ChaveIdentifica(t, chave, i);
  }
}
