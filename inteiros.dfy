/** The three integer domains of dominios.cpp: Numero (room number),
    Capacidade (room capacity) and Ramal (telephone extension). Each is a
    bounds check; each setter stores its argument only when the check passes. */
module Inteiros {
  import opened Wrappers

  /** Bounds of Numero (dominios.cpp, Numero::validar). */
  const NUMERO_MIN := 1
  const NUMERO_MAX := 999

  /** dominios.hpp: Capacidade::LIMITE_INFERIOR and LIMITE_SUPERIOR. */
  const LIMITE_INFERIOR := 1
  const LIMITE_SUPERIOR := 4

  /** Bounds of Ramal (dominios.cpp, Ramal::validar). */
  const RAMAL_MIN := 0
  const RAMAL_MAX := 50

  /** C++ `unsigned short`. */
  type uint16 = x: int | 0 <= x < 0x1_0000

  predicate NumeroValido(v: int) { NUMERO_MIN <= v <= NUMERO_MAX }

  predicate CapacidadeValida(v: int) { LIMITE_INFERIOR <= v <= LIMITE_SUPERIOR }

  predicate RamalValido(v: int) { RAMAL_MIN <= v <= RAMAL_MAX }

  datatype ErroNumero = NumeroForaDoIntervalo

  /** The two `out_of_range` messages of Capacidade::validar. */
  datatype ErroCapacidade = MenorQueMinimo | MaiorQueMaximo

  datatype ErroRamal = RamalForaDoIntervalo

  class Numero {
    var valor: int

    /** The implicit default constructor: `valor` is left uninitialised. */
    constructor ()
    {
    }

    static method Validar(v: int) returns (r: Outcome<ErroNumero>)
      ensures r == Pass <==> NumeroValido(v)
    {
      if v < 1 || v > 999 {
        return Fail(NumeroForaDoIntervalo);
      }
      return Pass;
    }

    method SetValor(novoValor: int) returns (r: Outcome<ErroNumero>)
      modifies this
      ensures r == Pass <==> NumeroValido(novoValor)
      ensures valor == if r == Pass then novoValor else old(valor)
    {
      r := Validar(novoValor);
      if r == Pass {
        valor := novoValor;
      }
    }
  }

  class Capacidade {
    var capacidade: uint16

    constructor ()
    {
    }

    /** The lower bound is checked first, so 0 reports `MenorQueMinimo`. */
    static method Validar(v: uint16) returns (r: Outcome<ErroCapacidade>)
      ensures r == Pass <==> CapacidadeValida(v)
      ensures r == Fail(MenorQueMinimo) <==> v < LIMITE_INFERIOR
      ensures r == Fail(MaiorQueMaximo) <==> v > LIMITE_SUPERIOR
    {
      if v < LIMITE_INFERIOR {
        return Fail(MenorQueMinimo);
      }
      if v > LIMITE_SUPERIOR {
        return Fail(MaiorQueMaximo);
      }
      return Pass;
    }

    method SetCapacidade(novo: uint16) returns (r: Outcome<ErroCapacidade>)
      modifies this
      ensures r == Pass <==> CapacidadeValida(novo)
      ensures capacidade == if r == Pass then novo else old(capacidade)
    {
      r := Validar(novo);
      if r == Pass {
        capacidade := novo;
      }
    }
  }

  /** The C++ class stores the extension in a `char`; every accepted value
      (0 to 50) fits in one, so the model stores the `int`. */
  class Ramal {
    var ramal: int

    /** `Ramal(int&)` calls the setter, which throws on an invalid value;
        `Criar` returns the object only when the setter would not throw. */
    constructor FromValid(v: int)
      requires RamalValido(v)
      ensures ramal == v
    {
      ramal := v;
    }

    static method Criar(v: int) returns (r: Outcome<ErroRamal>, o: Ramal?)
      ensures r == Pass <==> RamalValido(v)
      ensures r == Pass ==> o != null && fresh(o) && o.ramal == v
      ensures r != Pass ==> o == null
    {
      r := Validar(v);
      if r == Pass {
        o := new Ramal.FromValid(v);
      } else {
        o := null;
      }
    }

    static method Validar(v: int) returns (r: Outcome<ErroRamal>)
      ensures r == Pass <==> RamalValido(v)
    {
      if v < 0 || v > 50 {
        return Fail(RamalForaDoIntervalo);
      }
      return Pass;
    }

    method SetRamal(v: int) returns (r: Outcome<ErroRamal>)
      modifies this
      ensures r == Pass <==> RamalValido(v)
      ensures ramal == if r == Pass then v else old(ramal)
    {
      r := Validar(v);
      if r == Pass {
        ramal := v;
      }
    }
  }
}
