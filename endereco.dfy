/** Endereco (address), dominios.cpp Endereco::validar: 5 to 30 characters,
    alphanumerics and `,. `, no punctuation or space at either end, no `,`/`.`
    followed by `,`/`.`, and every space followed by an alphanumeric. */
module Enderecos {
  import opened Wrappers
  import opened Ascii

  const TAMANHO_MIN := 5
  const TAMANHO_MAX := 30
  const CARACTERES_ESPECIAIS: string := ",. "

  predicate EhEspecial(c: char) { c in CARACTERES_ESPECIAIS }

  predicate EhPontuacao(c: char) { c == ',' || c == '.' }

  /** What the first loop of Endereco::validar accepts: allowed characters
      only, no special character first or last. */
  predicate CaracteresAceitos(s: string)
    requires |s| > 0
  {
    (forall i :: 0 <= i < |s| ==> IsAlnum(s[i]) || EhEspecial(s[i]))
    && !EhEspecial(s[0]) && !EhEspecial(s[|s| - 1])
  }

  /** What the second loop accepts: no `,`/`.` followed by `,`/`.`, and every
      space followed by an alphanumeric. */
  predicate VizinhosAceitos(s: string)
  {
    (forall i :: 0 <= i < |s| - 1 ==> EhPontuacao(s[i]) ==> !EhPontuacao(s[i + 1]))
    && (forall i :: 0 <= i < |s| - 1 ==> s[i] == ' ' ==> IsAlnum(s[i + 1]))
  }

  /** The accept set of Endereco::validar. */
  predicate EnderecoValido(s: string)
  {
    TAMANHO_MIN <= |s| <= TAMANHO_MAX && CaracteresAceitos(s) && VizinhosAceitos(s)
  }

  /** The exception messages of Endereco::validar. */
  datatype ErroEndereco =
    | Tamanho
    | CaracterInvalido
    | Extremidade
    | VirgulaSeguida
    | PontoSeguido
    | EspacoSeguido

  class Endereco {
    var valor: string

    constructor ()
      ensures valor == ""
    {
      valor := "";
    }

    static method Validar(s: string) returns (r: Outcome<ErroEndereco>)
      ensures r == Pass <==> EnderecoValido(s)
      ensures r == Fail(Tamanho) <==> !(TAMANHO_MIN <= |s| <= TAMANHO_MAX)
      ensures r == Fail(CaracterInvalido) || r == Fail(Extremidade) <==>
        TAMANHO_MIN <= |s| <= TAMANHO_MAX && !CaracteresAceitos(s)
      ensures r == Fail(VirgulaSeguida) || r == Fail(PontoSeguido) || r == Fail(EspacoSeguido) <==>
        TAMANHO_MIN <= |s| <= TAMANHO_MAX && CaracteresAceitos(s) && !VizinhosAceitos(s)
    {
      if |s| < TAMANHO_MIN || |s| > TAMANHO_MAX {
        return Fail(Tamanho);
      }
      var i := 0;
      while i < |s|
        invariant 0 <= i <= |s|
        invariant forall j :: 0 <= j < i ==> IsAlnum(s[j]) || EhEspecial(s[j])
        invariant forall j :: 0 <= j < i && (j == 0 || j == |s| - 1) ==> !EhEspecial(s[j])
      {
        var c := s[i];
        if !(IsAlnum(c) || c in CARACTERES_ESPECIAIS) {
          return Fail(CaracterInvalido);
        }
        if (i == 0 || i == |s| - 1) && c in CARACTERES_ESPECIAIS {
          return Fail(Extremidade);
        }
        i := i + 1;
      }
      i := 0;
      while i < |s| - 1
        invariant 0 <= i <= |s| - 1
        invariant forall j :: 0 <= j < i ==> EhPontuacao(s[j]) ==> !EhPontuacao(s[j + 1])
        invariant forall j :: 0 <= j < i ==> s[j] == ' ' ==> IsAlnum(s[j + 1])
      {
        var atual, proximo := s[i], s[i + 1];
        if atual == ',' && (proximo == ',' || proximo == '.') {
          return Fail(VirgulaSeguida);
        }
        if atual == '.' && (proximo == ',' || proximo == '.') {
          return Fail(PontoSeguido);
        }
        if atual == ' ' && !IsAlnum(proximo) {
          return Fail(EspacoSeguido);
        }
        i := i + 1;
      }
      return Pass;
    }

    method SetValor(novoValor: string) returns (r: Outcome<ErroEndereco>)
      modifies this
      ensures r == Pass <==> EnderecoValido(novoValor)
      ensures valor == if r == Pass then novoValor else old(valor)
    {
      r := Validar(novoValor);
      if r == Pass {
        valor := novoValor;
      }
    }
  }

  /** In an accepted address no two spaces are adjacent and the words are
      separated by single spaces: every space sits between an alphanumeric or
      punctuation mark on its left and an alphanumeric on its right. */
  lemma {:induction false} EspacosIsolados(s: string, i: int)
    requires EnderecoValido(s)
    requires 0 <= i < |s| && s[i] == ' '
    ensures 0 < i < |s| - 1
    ensures IsAlnum(s[i + 1]) && s[i - 1] != ' '
  {
    assert i != 0 && i != |s| - 1;
    assert s[i - 1] != ' ';
  }

  /** The accepted fixture of testes.cpp. */
  lemma ExemploValido()
    ensures EnderecoValido("Rua Teste 101, Bairro X")
  {
    var s := "Rua Teste 101, Bairro X";
    forall i | 0 <= i < |s| ensures IsAlnum(s[i]) || EhEspecial(s[i]) {
    }
    forall i | 0 <= i < |s| - 1 ensures EhPontuacao(s[i]) ==> !EhPontuacao(s[i + 1]) {
    }
    forall i | 0 <= i < |s| - 1 ensures s[i] == ' ' ==> IsAlnum(s[i + 1]) {
    }
  }

  /** The rejected fixture of testes.cpp: it starts with a space. */
  lemma ExemploInvalido()
    ensures !EnderecoValido(" Comeca com espaco")
  {
  }
}
