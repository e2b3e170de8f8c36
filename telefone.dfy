/** Telefone (hotel phone), dominios.cpp Telefone::validar: a `+` followed by
    exactly fifteen digits. */
module Telefones {
  import opened Wrappers
  import opened Ascii

  const TAMANHO := 16

  /** The accept set of Telefone::validar. */
  predicate TelefoneValido(s: string)
  {
    |s| == TAMANHO && s[0] == '+' && forall i :: 1 <= i < |s| ==> IsDigit(s[i])
  }

  /** The three exception messages, checked in this order. */
  datatype ErroTelefone = SemMais | Tamanho | NaoDigito

  class Telefone {
    var telefone: string

    constructor ()
      ensures telefone == ""
    {
      telefone := "";
    }

    /** The C++ routine returns `true` or throws; `Pass` stands for `true`.
        A wrong first character is reported before a wrong length. */
    static method Validar(s: string) returns (r: Outcome<ErroTelefone>)
      ensures r == Pass <==> TelefoneValido(s)
      ensures r == Fail(SemMais) <==> |s| == 0 || s[0] != '+'
      ensures r == Fail(Tamanho) <==> |s| > 0 && s[0] == '+' && |s| != TAMANHO
    {
      if |s| == 0 || s[0] != '+' {
        return Fail(SemMais);
      }
      if |s| != 16 {
        return Fail(Tamanho);
      }
      var i := 1;
      while i < |s|
        invariant 1 <= i <= |s|
        invariant forall j :: 1 <= j < i ==> IsDigit(s[j])
      {
        if !IsDigit(s[i]) {
          return Fail(NaoDigito);
        }
        i := i + 1;
      }
      return Pass;
    }

    method SetTelefone(novo: string) returns (r: Outcome<ErroTelefone>)
      modifies this
      ensures r == Pass <==> TelefoneValido(novo)
      ensures telefone == if r == Pass then novo else old(telefone)
    {
      r := Validar(novo);
      if r == Pass {
        telefone := novo;
      }
    }
  }

  /** `+5511999999999` has only thirteen digits and is rejected; with two
      more digits it is accepted. */
  lemma Exemplos()
    ensures !TelefoneValido("+5511999999999")
    ensures TelefoneValido("+551199999999900")
  {
    var s := "+551199999999900";
    assert forall i :: 1 <= i < |s| ==> IsDigit(s[i]);
  }
}
