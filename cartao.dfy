/** Cartao (guest's card number), dominios.cpp Cartao::validar: sixteen ASCII
    digits whose last one is the Luhn check digit of the first fifteen, as the
    mod-10 check of ISO/IEC 7812-1, Annex B defines it. */
module Cartoes {
  import opened Wrappers
  import opened Ascii

  const TAMANHO := 16

  /** What Cartao::validar adds to its counter for digit `d` at index `i`
      (index 0 is the leftmost digit): odd indices as they are, even indices
      doubled, less 9 when the double exceeds 9. */
  function Parcela(i: int, d: nat): (p: nat)
    requires d < 10
    ensures p < 10
  {
    if i % 2 == 1 then d else if 2 * d > 9 then 2 * d - 9 else 2 * d
  }

  /** The sum of `Parcela` over the indices `lo` up to `hi - 1`. */
  function Soma(s: string, lo: nat, hi: nat): (r: nat)
    requires lo <= hi <= |s| && SoDigitos(s)
    ensures r <= 9 * (hi - lo)
    decreases hi - lo
  {
    if lo == hi then 0 else Parcela(lo, DigitValue(s[lo])) + Soma(s, lo + 1, hi)
  }

  /** The accept set of Cartao::validar. */
  predicate CartaoValido(s: string)
  {
    |s| == TAMANHO && SoDigitos(s)
    && Verificador(Soma(s, 0, 15)) == DigitValue(s[15])
  }

  /** The check digit Cartao::validar expects after the sum `soma`. */
  function Verificador(soma: nat): nat
  {
    (10 - soma % 10) % 10
  }

  datatype ErroCartao = Tamanho | NaoDigito | Luhn

  class Cartao {
    var valor: string

    constructor ()
      ensures valor == ""
    {
      valor := "";
    }

    /** The counter is a `short int`; it never exceeds 135, so it cannot
        overflow. */
    static method Validar(s: string) returns (r: Outcome<ErroCartao>)
      ensures r == Pass <==> CartaoValido(s)
      ensures r == Fail(Tamanho) <==> |s| != TAMANHO
      ensures r == Fail(NaoDigito) <==> |s| == TAMANHO && !SoDigitos(s)
    {
      if |s| != 16 {
        return Fail(Tamanho);
      }
      var i := 0;
      while i < |s|
        invariant 0 <= i <= |s|
        invariant forall j :: 0 <= j < i ==> IsDigit(s[j])
      {
        if !IsDigit(s[i]) {
          return Fail(NaoDigito);
        }
        i := i + 1;
      }
      var contador := 0;
      i := 14;
      while i >= 0
        invariant -1 <= i <= 14
        invariant contador == Soma(s, i + 1, 15)
        invariant 0 <= contador <= 9 * (14 - i) < 0x8000
      {
        var numero := DigitValue(s[i]);
        if i % 2 == 1 {
          contador := contador + numero;
        } else if 2 * numero > 9 {
          var digito := 2 * numero - 9;
          contador := contador + digito;
        } else {
          contador := contador + 2 * numero;
        }
        i := i - 1;
      }
      var init := DigitValue(s[15]);
      if Verificador(contador) != init {
        return Fail(Luhn);
      }
      return Pass;
    }

    method SetValor(novo: string) returns (r: Outcome<ErroCartao>)
      modifies this
      ensures r == Pass <==> CartaoValido(novo)
      ensures valor == if r == Pass then novo else old(valor)
    {
      r := Validar(novo);
      if r == Pass {
        valor := novo;
      }
    }
  }

  // ---------------------------------------------------------------------
  // The textbook statement of the Luhn check, as a reference definition.

  /** Sum of the decimal digits of a number below 100. */
  function SomaDosDigitos(n: nat): nat
    requires n < 100
  {
    n / 10 + n % 10
  }

  /** Luhn as usually stated: counting from the rightmost digit (the check
      digit) as position 1, double the digits at even positions, replace each
      product by the sum of its digits, and add everything. */
  function SomaPadrao(s: string, lo: nat): (r: nat)
    requires lo <= |s| && SoDigitos(s)
    decreases |s| - lo
  {
    if lo == |s| then 0
    else
      var d := DigitValue(s[lo]);
      (if (|s| - lo) % 2 == 0 then SomaDosDigitos(2 * d) else d) + SomaPadrao(s, lo + 1)
  }

  predicate LuhnPadrao(s: string)
  {
    SoDigitos(s) && MultiploDeDez(SomaPadrao(s, 0))
  }

  predicate MultiploDeDez(n: int) { n % 10 == 0 }

  lemma {:induction false} SomaPadraoSoma(s: string, lo: nat)
    requires |s| == TAMANHO && SoDigitos(s) && lo <= 15
    ensures SomaPadrao(s, lo) == Soma(s, lo, 15) + DigitValue(s[15])
    decreases 15 - lo
  {
    if lo == 15 {
      assert SomaPadrao(s, 16) == 0;
    } else {
      SomaPadraoSoma(s, lo + 1);
      ParcelaEhContribuicao(s, lo);
    }
  }

  /** At every index but the last, the term of Cartao::validar and the
      textbook term agree. */
  lemma ParcelaEhContribuicao(s: string, i: nat)
    requires |s| == TAMANHO && SoDigitos(s) && i < 15
    ensures SomaPadrao(s, i) == Parcela(i, DigitValue(s[i])) + SomaPadrao(s, i + 1)
  {
    var d := DigitValue(s[i]);
    assert (16 - i) % 2 == 0 <==> i % 2 == 0;
    DobroSomado(d);
  }

  /** The digit sum of a doubled digit is the C++ "subtract nine". */
  lemma DobroSomado(d: nat)
    requires d < 10
    ensures SomaDosDigitos(2 * d) == if 2 * d > 9 then 2 * d - 9 else 2 * d
  {
    if d < 5 {
      assert (2 * d) / 10 == 0 && (2 * d) % 10 == 2 * d;
    } else {
      assert (2 * d) / 10 == 1 && (2 * d) % 10 == 2 * d - 10;
    }
  }

  /** The check of Cartao::validar is the textbook Luhn check on sixteen
      digits. */
  lemma CartaoValidoSeLuhn(s: string)
    requires |s| == TAMANHO && SoDigitos(s)
    ensures CartaoValido(s) <==> LuhnPadrao(s)
  {
    SomaPadraoSoma(s, 0);
    DigitoVerificador(SomaPadrao(s, 0), Soma(s, 0, 15), DigitValue(s[15]));
  }

  /** `d` is the check digit of `soma` exactly when `soma + d` is a multiple
      of ten. */
  lemma DigitoVerificador(total: nat, soma: nat, d: nat)
    requires d < 10 && total == soma + d
    ensures MultiploDeDez(total) <==> Verificador(soma) == d
  {
    var q, m := soma / 10, soma % 10;
    assert soma == 10 * q + m;
    if m + d < 10 {
      assert total % 10 == m + d;
    } else {
      assert total == 10 * (q + 1) + (m + d - 10);
      assert total % 10 == m + d - 10;
    }
  }

  /** What the digit at `i` contributes to `SomaPadrao`. */
  function Contribuicao(s: string, i: nat): (c: nat)
    requires i < |s| && SoDigitos(s)
    ensures c < 10
  {
    var d := DigitValue(s[i]);
    if (|s| - i) % 2 == 0 then SomaDosDigitos(2 * d) else d
  }

  /** Past the changed position the two sums agree. */
  lemma {:induction false} SomaIgualDepois(s: string, t: string, k: nat, lo: nat)
    requires |s| == |t| && SoDigitos(s) && SoDigitos(t) && k < lo <= |s|
    requires forall j :: 0 <= j < |s| && j != k ==> s[j] == t[j]
    ensures SomaPadrao(t, lo) == SomaPadrao(s, lo)
    decreases |s| - lo
  {
    if lo < |s| {
      SomaIgualDepois(s, t, k, lo + 1);
    }
  }

  /** Up to the changed position the two sums differ by exactly the change in
      that position's contribution. */
  lemma {:induction false} SomaDiferenca(s: string, t: string, k: nat, lo: nat)
    requires |s| == |t| && SoDigitos(s) && SoDigitos(t) && lo <= k < |s|
    requires forall j :: 0 <= j < |s| && j != k ==> s[j] == t[j]
    ensures SomaPadrao(t, lo) - SomaPadrao(s, lo) == Contribuicao(t, k) - Contribuicao(s, k)
    decreases k - lo
  {
    if lo < k {
      SomaDiferenca(s, t, k, lo + 1);
      assert s[lo] == t[lo];
    } else {
      SomaIgualDepois(s, t, k, k + 1);
    }
  }

  /** Doubling and summing the digits permutes 0..9. */
  lemma DobroInjetivo(a: nat, b: nat)
    requires a < 10 && b < 10 && a != b
    ensures SomaDosDigitos(2 * a) != SomaDosDigitos(2 * b)
  {
    DobroSomado(a);
    DobroSomado(b);
  }

  /** Luhn detects every single-digit error: a card number that differs from
      an accepted one in exactly one digit is rejected. */
  lemma ErroUnicoDetectado(s: string, t: string, k: nat)
    requires CartaoValido(s)
    requires |t| == TAMANHO && SoDigitos(t) && k < TAMANHO && t[k] != s[k]
    requires forall j :: 0 <= j < |s| && j != k ==> s[j] == t[j]
    ensures !CartaoValido(t)
  {
    CartaoValidoSeLuhn(s);
    CartaoValidoSeLuhn(t);
    SomaDiferenca(s, t, k, 0);
    ContribuicaoMuda(s, t, k);
    MultiploDeDezPerto(SomaPadrao(s, 0), SomaPadrao(t, 0), Contribuicao(s, k), Contribuicao(t, k));
  }

  /** A different digit contributes a different amount. */
  lemma ContribuicaoMuda(s: string, t: string, k: nat)
    requires |t| == |s| && SoDigitos(s) && SoDigitos(t) && k < |s| && t[k] != s[k]
    ensures Contribuicao(t, k) != Contribuicao(s, k)
  {
    var a, b := DigitValue(s[k]), DigitValue(t[k]);
    assert a != b;
    if (|s| - k) % 2 == 0 {
      DobroInjetivo(a, b);
    }
  }

  /** Two sums that differ by a nonzero change of a contribution below ten
      are not both multiples of ten. */
  lemma MultiploDeDezPerto(x: nat, y: nat, cx: nat, cy: nat)
    requires MultiploDeDez(x) && cx < 10 && cy < 10 && cx != cy && y - x == cy - cx
    ensures !MultiploDeDez(y)
  {
    var q := x / 10;
    assert x == 10 * q;
    if y < x {
      assert y == 10 * (q - 1) + (y - 10 * (q - 1));
    } else {
      assert y == 10 * q + (y - 10 * q);
    }
  }

  /** A number Cartao::validar accepts; ExemploInvalido8 changes its check digit. */
  lemma ExemploValido()
    ensures CartaoValido("4539148803436467")
  {
    var s := "4539148803436467";
    assert SoDigitos(s);
    assert Soma(s, 15, 15) == 0;
    assert Soma(s, 14, 15) == 3;
    assert Soma(s, 13, 15) == 7;
    assert Soma(s, 12, 15) == 10;
    assert Soma(s, 11, 15) == 13;
    assert Soma(s, 10, 15) == 21;
    assert Soma(s, 9, 15) == 24;
    assert Soma(s, 8, 15) == 24;
    assert Soma(s, 7, 15) == 32;
    assert Soma(s, 6, 15) == 39;
    assert Soma(s, 5, 15) == 43;
    assert Soma(s, 4, 15) == 45;
    assert Soma(s, 3, 15) == 54;
    assert Soma(s, 2, 15) == 60;
    assert Soma(s, 1, 15) == 65;
    assert Soma(s, 0, 15) == 73;
  }

  /** Changing the check digit of the valid example breaks it. */
  lemma ExemploInvalido8()
    ensures !CartaoValido("4539148803436468")
  {
    ExemploValido();
    var t := "4539148803436468";
    assert SoDigitos(t);
    ErroUnicoDetectado("4539148803436467", t, 15);
  }
}
