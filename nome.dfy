/** Nome (person or hotel name), dominios.cpp Nome::validar: 5 to 20
    characters, letters and spaces only, starting with A-Z, not ending with a
    space, and every character after a space in A-Z. */
module Nomes {
  import opened Wrappers
  import opened Ascii

  const TAMANHO_MIN := 5
  const TAMANHO_MAX := 20

  /** The accept set of Nome::validar. */
  predicate NomeValido(s: string)
  {
    TAMANHO_MIN <= |s| <= TAMANHO_MAX
    && IsUpper(s[0]) && s[|s| - 1] != ' '
    && (forall i :: 0 <= i < |s| ==> IsAlpha(s[i]) || s[i] == ' ')
    && (forall i :: 0 <= i < |s| - 1 ==> s[i] == ' ' ==> IsUpper(s[i + 1]))
  }

  /** The exception messages of Nome::validar. */
  datatype ErroNome =
    | Tamanho
    | UltimoEspaco
    | PrimeiroNaoMaiusculo
    | TermoMinusculo
    | EspacoDuplo
    | CaracterInvalido

  class Nome {
    var valor: string

    constructor ()
      ensures valor == ""
    {
      valor := "";
    }

    /** The length, the last and the first character are checked in that
        order before the scan of `teve_espaco`. */
    static method Validar(s: string) returns (r: Outcome<ErroNome>)
      ensures r == Pass <==> NomeValido(s)
      ensures r == Fail(Tamanho) <==> !(TAMANHO_MIN <= |s| <= TAMANHO_MAX)
      ensures r == Fail(UltimoEspaco) <==> TAMANHO_MIN <= |s| <= TAMANHO_MAX && s[|s| - 1] == ' '
      ensures r == Fail(PrimeiroNaoMaiusculo) <==>
        TAMANHO_MIN <= |s| <= TAMANHO_MAX && s[|s| - 1] != ' ' && !IsUpper(s[0])
    {
      if 5 > |s| || |s| > 20 {
        return Fail(Tamanho);
      } else if s[|s| - 1] == ' ' {
        return Fail(UltimoEspaco);
      } else if s[0] > 'Z' || s[0] < 'A' {
        return Fail(PrimeiroNaoMaiusculo);
      }
      var teveEspaco := false;
      var i := 0;
      while i < |s|
        invariant 0 <= i <= |s|
        invariant teveEspaco <==> i > 0 && s[i - 1] == ' '
        invariant forall j :: 0 <= j < i ==> IsAlpha(s[j]) || s[j] == ' '
        invariant forall j :: 0 <= j < i - 1 ==> s[j] == ' ' ==> IsUpper(s[j + 1])
      {
        var c := s[i];
        if teveEspaco {
          teveEspaco := false;
          if c < 'A' || c > 'Z' {
            if 'a' <= c <= 'z' {
              return Fail(TermoMinusculo);
            } else if c == ' ' {
              return Fail(EspacoDuplo);
            } else {
              return Fail(CaracterInvalido);
            }
          }
        } else {
          if c == ' ' {
            teveEspaco := true;
          } else if !(('A' <= c <= 'Z') || ('a' <= c <= 'z')) {
            return Fail(CaracterInvalido);
          }
        }
        i := i + 1;
      }
      return Pass;
    }

    method SetValor(novoValor: string) returns (r: Outcome<ErroNome>)
      modifies this
      ensures r == Pass <==> NomeValido(novoValor)
      ensures valor == if r == Pass then novoValor else old(valor)
    {
      r := Validar(novoValor);
      if r == Pass {
        valor := novoValor;
      }
    }
  }

  /** Double spaces are impossible in an accepted name, and every word (a run
      of letters after a space) starts with a capital. */
  lemma SemEspacoDuplo(s: string, i: int)
    requires NomeValido(s)
    requires 0 <= i < |s| - 1 && s[i] == ' '
    ensures s[i + 1] != ' ' && IsUpper(s[i + 1])
  {
  }

  /** `Maria Silva` and `Admin Hotel`, the names of testes.cpp and main.cpp,
      are accepted; `maria Silva` and `Maria  Silva` are not. */
  lemma Exemplos()
    ensures NomeValido("Maria Silva") && NomeValido("Admin Hotel")
    ensures !NomeValido("maria Silva") && !NomeValido("Maria  Silva")
  {
    var s := "Maria Silva";
    assert forall i :: 0 <= i < |s| ==> IsAlpha(s[i]) || s[i] == ' ';
    assert forall i :: 0 <= i < |s| - 1 ==> s[i] == ' ' ==> IsUpper(s[i + 1]);
    var t := "Admin Hotel";
    assert forall i :: 0 <= i < |t| ==> IsAlpha(t[i]) || t[i] == ' ';
    assert forall i :: 0 <= i < |t| - 1 ==> t[i] == ' ' ==> IsUpper(t[i + 1]);
    var u := "Maria  Silva";
    assert u[5] == ' ' && !IsUpper(u[6]);
  }
}
