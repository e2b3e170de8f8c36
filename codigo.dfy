/** Codigo (primary key of Hotel and Reserva), dominios.cpp Codigo::validar:
    exactly ten characters, each a lower-case letter or a digit. The test on
    each character is `(x >= 'a' && x <= 'z') || (x >= '0' && x <= '9')`;
    there is no branch for A-Z, so upper-case letters are rejected. */
module Codigos {
  import opened Wrappers
  import opened Ascii

  const TAMANHO := 10

  predicate CaracterDeCodigo(c: char) { IsLower(c) || IsDigit(c) }

  /** The accept set of Codigo::validar. */
  predicate CodigoValido(s: string)
  {
    |s| == TAMANHO && forall i :: 0 <= i < |s| ==> CaracterDeCodigo(s[i])
  }

  datatype ErroCodigo = Tamanho | CaracterInvalido

  class Codigo {
    var codigo: string

    /** `Codigo(std::string&)` calls the setter, which throws on an invalid
        code; `Criar` returns the object only when it would not throw. */
    constructor FromValid(s: string)
      requires CodigoValido(s)
      ensures codigo == s
    {
      codigo := s;
    }

    static method Criar(s: string) returns (r: Outcome<ErroCodigo>, o: Codigo?)
      ensures r == Pass <==> CodigoValido(s)
      ensures r == Pass ==> o != null && fresh(o) && o.codigo == s
      ensures r != Pass ==> o == null
    {
      r := Validar(s);
      if r == Pass {
        o := new Codigo.FromValid(s);
      } else {
        o := null;
      }
    }

    static method Validar(s: string) returns (r: Outcome<ErroCodigo>)
      ensures r == Pass <==> CodigoValido(s)
      ensures r == Fail(Tamanho) <==> |s| != TAMANHO
    {
      if |s| != 10 {
        return Fail(Tamanho);
      }
      var i := 0;
      while i < |s|
        invariant 0 <= i <= |s|
        invariant forall j :: 0 <= j < i ==> CaracterDeCodigo(s[j])
      {
        var x := s[i];
        if !((x >= 'a' && x <= 'z') || (x >= '0' && x <= '9')) {
          return Fail(CaracterInvalido);
        }
        i := i + 1;
      }
      return Pass;
    }

    method SetCodigo(s: string) returns (r: Outcome<ErroCodigo>)
      modifies this
      ensures r == Pass <==> CodigoValido(s)
      ensures codigo == if r == Pass then s else old(codigo)
    {
      r := Validar(s);
      if r == Pass {
        codigo := s;
      }
    }
  }

  /** Any code holding an upper-case letter is rejected, so `AB12345678`
      (ten alphanumerics) is not a code while `ab12345678` is. */
  lemma MaiusculaRejeitada(s: string, i: int)
    requires 0 <= i < |s| && IsUpper(s[i])
    ensures !CodigoValido(s)
  {
    assert !CaracterDeCodigo(s[i]);
  }

  lemma Exemplos()
    ensures !CodigoValido("AB12345678")
    ensures CodigoValido("ab12345678")
    ensures !CodigoValido("ab1234567")
  {
    MaiusculaRejeitada("AB12345678", 0);
    var s := "ab12345678";
    assert forall i :: 0 <= i < |s| ==> CaracterDeCodigo(s[i]);
  }
}
