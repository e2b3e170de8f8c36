/** Senha (manager password), dominios.cpp Senha::validar: five characters
    drawn from four classes, every class present, and neither two letters nor
    two digits side by side. */
module Senhas {
  import opened Wrappers
  import opened Ascii

  const TAMANHO := 5

  /** The accepted special characters, `!"#$%&?`. */
  const CARACTERES_ESPECIAIS: string := "!\"#$%&?"

  predicate EhEspecial(c: char) { c in CARACTERES_ESPECIAIS }

  predicate CaracterPermitido(c: char)
  {
    IsDigit(c) || IsUpper(c) || IsLower(c) || EhEspecial(c)
  }

  predicate TemDigito(s: string) { exists i :: 0 <= i < |s| && IsDigit(s[i]) }
  predicate TemMaiuscula(s: string) { exists i :: 0 <= i < |s| && IsUpper(s[i]) }
  predicate TemMinuscula(s: string) { exists i :: 0 <= i < |s| && IsLower(s[i]) }
  predicate TemEspecial(s: string) { exists i :: 0 <= i < |s| && EhEspecial(s[i]) }

  /** Position `i` starts a letter-letter or digit-digit pair. */
  predicate ParIlegal(s: string, i: int)
    requires 0 <= i < |s| - 1
  {
    (IsAlpha(s[i]) && IsAlpha(s[i + 1])) || (IsDigit(s[i]) && IsDigit(s[i + 1]))
  }

  /** The accept set of Senha::validar. */
  predicate SenhaValida(s: string)
  {
    |s| == TAMANHO
    && (forall i :: 0 <= i < |s| ==> CaracterPermitido(s[i]))
    && TemDigito(s) && TemMaiuscula(s) && TemMinuscula(s) && TemEspecial(s)
    && (forall i :: 0 <= i < |s| - 1 ==> !ParIlegal(s, i))
  }

  /** The five exception messages of Senha::validar, in the order it checks. */
  datatype ErroSenha =
    | Tamanho
    | CaracterInvalido
    | Composicao
    | LetraSeguidaDeLetra
    | DigitoSeguidoDeDigito

  /** The first position, from `i` on, that starts an illegal pair. */
  function PrimeiroPar(s: string, i: nat): (r: Option<nat>)
    ensures r.Some? ==> i <= r.value < |s| - 1 && ParIlegal(s, r.value)
    ensures r.Some? ==> forall j :: i <= j < r.value ==> !ParIlegal(s, j)
    ensures r.None? ==> forall j :: i <= j < |s| - 1 ==> !ParIlegal(s, j)
    decreases |s| - i
  {
    if i + 1 >= |s| then None
    else if ParIlegal(s, i) then Some(i)
    else PrimeiroPar(s, i + 1)
  }

  /** The verdict of Senha::validar, rule by rule in the order it checks. */
  function Diagnostico(s: string): Outcome<ErroSenha>
  {
    if |s| != TAMANHO then Fail(Tamanho)
    else if exists i :: 0 <= i < |s| && !CaracterPermitido(s[i]) then Fail(CaracterInvalido)
    else if !(TemDigito(s) && TemMaiuscula(s) && TemMinuscula(s) && TemEspecial(s)) then Fail(Composicao)
    else match PrimeiroPar(s, 0)
      case None => Pass
      case Some(i) => if IsAlpha(s[i]) then Fail(LetraSeguidaDeLetra) else Fail(DigitoSeguidoDeDigito)
  }

  class Senha {
    var valor: string

    constructor ()
      ensures valor == ""
    {
      valor := "";
    }

    /** Reports the first rule violated, in the order of the C++ code. */
    static method Validar(s: string) returns (r: Outcome<ErroSenha>)
      ensures r == Diagnostico(s)
      ensures r == Pass <==> SenhaValida(s)
    {
      if |s| != TAMANHO {
        return Fail(Tamanho);
      }
      var temDigito, temMaiuscula, temMinuscula, temEspecial := false, false, false, false;
      var i := 0;
      while i < TAMANHO
        invariant 0 <= i <= TAMANHO
        invariant forall j :: 0 <= j < i ==> CaracterPermitido(s[j])
        invariant temDigito <==> exists j :: 0 <= j < i && IsDigit(s[j])
        invariant temMaiuscula <==> exists j :: 0 <= j < i && IsUpper(s[j])
        invariant temMinuscula <==> exists j :: 0 <= j < i && IsLower(s[j])
        invariant temEspecial <==> exists j :: 0 <= j < i && EhEspecial(s[j])
      {
        var c := s[i];
        if IsDigit(c) {
          temDigito := true;
        } else if IsUpper(c) {
          temMaiuscula := true;
        } else if IsLower(c) {
          temMinuscula := true;
        } else if c in CARACTERES_ESPECIAIS {
          temEspecial := true;
        } else {
          return Fail(CaracterInvalido);
        }
        i := i + 1;
      }
      if !temDigito || !temMaiuscula || !temMinuscula || !temEspecial {
        return Fail(Composicao);
      }
      i := 0;
      while i < TAMANHO - 1
        invariant 0 <= i <= TAMANHO - 1
        invariant forall j :: 0 <= j < i ==> !ParIlegal(s, j)
        invariant PrimeiroPar(s, 0) == PrimeiroPar(s, i)
      {
        var atual, proximo := s[i], s[i + 1];
        if IsAlpha(atual) && IsAlpha(proximo) {
          return Fail(LetraSeguidaDeLetra);
        }
        if IsDigit(atual) && IsDigit(proximo) {
          return Fail(DigitoSeguidoDeDigito);
        }
        i := i + 1;
      }
      DiagnosticoAceita(s);
      return Pass;
    }

    method SetValor(novoValor: string) returns (r: Outcome<ErroSenha>)
      modifies this
      ensures r == Pass <==> SenhaValida(novoValor)
      ensures valor == if r == Pass then novoValor else old(valor)
    {
      r := Validar(novoValor);
      if r == Pass {
        valor := novoValor;
      }
    }
  }

  /** Letter-letter and digit-digit pairs are rejected even when all four
      classes are present. */
  lemma AdjacenciaRejeita(s: string, i: int)
    requires 0 <= i < |s| - 1
    requires (IsAlpha(s[i]) && IsAlpha(s[i + 1])) || (IsDigit(s[i]) && IsDigit(s[i + 1]))
    ensures !SenhaValida(s)
  {
    assert ParIlegal(s, i);
  }

  /** `A1!b#`, the valid fixture of testes.cpp, is accepted. */
  lemma ExemploValido()
    ensures SenhaValida("A1!b#")
  {
    var s := "A1!b#";
    assert IsDigit(s[1]) && IsUpper(s[0]) && IsLower(s[3]) && EhEspecial(s[2]);
    assert forall i :: 0 <= i < |s| - 1 ==> !ParIlegal(s, i);
  }

  /** A password passes exactly when it satisfies every rule. */
  lemma DiagnosticoAceita(s: string)
    ensures Diagnostico(s) == Pass <==> SenhaValida(s)
  {
    if |s| == TAMANHO && (forall i :: 0 <= i < |s| ==> CaracterPermitido(s[i])) {
      var p := PrimeiroPar(s, 0);
    }
  }

  /** `AA1!#`, the invalid fixture of testes.cpp, has no lower-case letter: it
      fails the composition rule before the adjacency rule is reached. */
  lemma ExemploInvalidoFalhaComposicao()
    ensures Diagnostico("AA1!#") == Fail(Composicao)
  {
    var s := "AA1!#";
    assert forall i :: 0 <= i < |s| ==> CaracterPermitido(s[i]);
    assert forall i :: 0 <= i < |s| ==> !IsLower(s[i]);
  }

  /** `Aa1!#`, the string that testes.hpp describes as the invalid fixture,
      fails the letter-letter rule instead. */
  lemma ExemploDescritoFalhaAdjacencia()
    ensures Diagnostico("Aa1!#") == Fail(LetraSeguidaDeLetra)
  {
    var s := "Aa1!#";
    assert forall i :: 0 <= i < |s| ==> CaracterPermitido(s[i]);
    assert IsDigit(s[2]) && IsUpper(s[0]) && IsLower(s[1]) && EhEspecial(s[3]);
    assert ParIlegal(s, 0);
  }
}
