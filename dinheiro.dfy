/** Dinheiro (room rate, reservation value), dominios.cpp: a text such as
    `1.234,56` is validated, stored as a whole number of centavos, and
    formatted back with `.` between groups of three digits. */
module Dinheiros {
  import opened Wrappers
  import opened Ascii
  import opened Cadeias

  /** The accepted range in centavos: 0,01 to 1.000.000,00. */
  const VALOR_MIN := 1
  const VALOR_MAX := 100000000
  /** The largest `long long`; `stoll` throws `out_of_range` above it. */
  const LLONG_MAX := 0x7fff_ffff_ffff_ffff

  /** The digits of `s` in order, everything else dropped. */
  function Digitos(s: string): (r: string)
    ensures SoDigitos(r) && |r| <= |s|
  {
    if |s| == 0 then ""
    else (if IsDigit(s[0]) then [s[0]] else []) + Digitos(s[1..])
  }

  /** The number a string of decimal digits denotes (`stoll`, `stoi` on
      digits only); the empty string denotes 0. */
  function ValorDecimal(d: string): nat
    requires SoDigitos(d)
  {
    if |d| == 0 then 0
    else 10 * ValorDecimal(d[..|d| - 1]) + DigitValue(d[|d| - 1])
  }

  /** The number of centavos a text denotes: its digits read as one
      number. */
  function Valor(s: string): nat { ValorDecimal(Digitos(s)) }

  /** The length of the run of digits `s` starts with. */
  function DigitosIniciais(s: string): (n: nat)
    ensures n <= |s|
  {
    if |s| > 0 && IsDigit(s[0]) then 1 + DigitosIniciais(s[1..]) else 0
  }

  /** A thousands separator at `j`: not first, followed by exactly three
      digits (up to the end or to a character that is not a digit). */
  predicate PontoBemPosto(r: string, j: int)
  {
    0 < j && j + 4 <= |r| && IsDigit(r[j + 1]) && IsDigit(r[j + 2]) && IsDigit(r[j + 3])
    && (j + 4 == |r| || !IsDigit(r[j + 4]))
  }

  /** The part before the comma: not empty, digits and `.` only, each `.`
      well placed. Only the groups to the right of a `.` are constrained, so
      `1234` and `1234.567` are accepted too. */
  predicate ReaisValidos(r: string)
  {
    |r| > 0
    && (forall j :: 0 <= j < |r| ==> IsDigit(r[j]) || r[j] == '.')
    && (forall j :: 0 <= j < |r| && r[j] == '.' ==> PontoBemPosto(r, j))
  }

  /** The text holds exactly one comma. */
  predicate VirgulaUnica(s: string)
  {
    ',' in s && ',' !in s[Encontrar(s, ',').value + 1..]
  }

  /** Everything Dinheiro::validar checks before the value: one comma,
      exactly two digits after it, valid reais before it. */
  predicate FormatoValido(s: string)
  {
    ',' in s
    && var p := Encontrar(s, ',').value;
    ',' !in s[p + 1..] && |s| == p + 3 && IsDigit(s[p + 1]) && IsDigit(s[p + 2])
    && ReaisValidos(s[..p])
  }

  /** The accept set of Dinheiro::validar. */
  predicate DinheiroValido(s: string)
  {
    FormatoValido(s) && VALOR_MIN <= Valor(s) <= VALOR_MAX
  }

  /** The exception messages of Dinheiro::validar, in the order it
      checks. */
  datatype ErroDinheiro =
    | SemVirgula
    | VirgulaRepetida
    | CentavosTamanho
    | CentavosNaoNumericos
    | ReaisVazio
    | PontoInicial
    | PontoMalPosicionado
    | CaracterInvalido
    | ExcedeLimite
    | ForaDoIntervalo

  // ---------------------------------------------------------------------
  // getValor: `to_string`, padding to three characters, grouping.

  /** `std::to_string` of a non-negative number. */
  function Decimal(n: nat): (r: string)
    ensures |r| > 0 && SoDigitos(r)
  {
    if n < 10 then [DigitChar(n)] else Decimal(n / 10) + [DigitChar(n % 10)]
  }

  /** `std::to_string` of an `int`. */
  function ParaTexto(v: int): (r: string)
    ensures |r| > 0
    ensures v >= 0 ==> SoDigitos(r)
  {
    if v < 0 then "-" + Decimal(-v) else Decimal(v)
  }

  /** `while (s.length() < 3) s = "0" + s;` */
  function Preencher(s: string): (r: string)
    ensures |r| >= 3 && |r| >= |s|
    decreases 3 - |s|
  {
    if |s| >= 3 then s else Preencher("0" + s)
  }

  /** The reais with a `.` before every group of three digits counted from
      the right. */
  function Agrupar(r: string): string
    decreases |r|
  {
    if |r| <= 3 then r else Agrupar(r[..|r| - 3]) + "." + r[|r| - 3..]
  }

  /** What Dinheiro::getValor returns for a stored value. */
  function Formatar(v: int): string
  {
    var s := Preencher(ParaTexto(v));
    Agrupar(s[..|s| - 2]) + "," + s[|s| - 2..]
  }

  class Dinheiro {
    /** The value in centavos. */
    var valor: int

    /** A default-constructed Dinheiro holds an indeterminate value. */
    constructor ()
    {
    }

    /** Scans the reais from right to left, keeping the digits seen and the
        number of digits since the last `.`, then reads the digits and the
        centavos as one number. */
    static method Validar(s: string) returns (r: Outcome<ErroDinheiro>)
      ensures r == Pass <==> DinheiroValido(s)
      ensures r == Fail(SemVirgula) <==> ',' !in s
      ensures r == Fail(VirgulaRepetida) <==> ',' in s && ',' in s[Encontrar(s, ',').value + 1..]
      ensures r == Fail(CentavosTamanho) <==>
        VirgulaUnica(s) && |s| != Encontrar(s, ',').value + 3
      ensures r == Fail(CentavosNaoNumericos) <==>
        VirgulaUnica(s) && |s| == Encontrar(s, ',').value + 3
        && !(IsDigit(s[|s| - 2]) && IsDigit(s[|s| - 1]))
      ensures r == Fail(ReaisVazio) <==>
        VirgulaUnica(s) && |s| == 3 && s[0] == ',' && IsDigit(s[1]) && IsDigit(s[2])
      ensures r == Fail(ExcedeLimite) <==> FormatoValido(s) && Valor(s) > LLONG_MAX
      ensures r == Fail(ForaDoIntervalo) <==>
        FormatoValido(s) && Valor(s) <= LLONG_MAX && !(VALOR_MIN <= Valor(s) <= VALOR_MAX)
    {
      var pv := Encontrar(s, ',');
      if pv.None? {
        return Fail(SemVirgula);
      }
      var p := pv.value;
      if ',' in s[p + 1..] {
        return Fail(VirgulaRepetida);
      }
      var centavos := s[p + 1..];
      if |centavos| != 2 {
        return Fail(CentavosTamanho);
      }
      if !IsDigit(centavos[0]) || !IsDigit(centavos[1]) {
        return Fail(CentavosNaoNumericos);
      }
      var reais := s[..p];
      if |reais| == 0 {
        return Fail(ReaisVazio);
      }
      var rr, numerico := VarrerReais(reais);
      if rr != Pass {
        return rr;
      }
      numerico := numerico + centavos;
      DigitosDoTexto(s, p);
      var v := ValorDecimal(numerico);
      if v > LLONG_MAX {
        return Fail(ExcedeLimite);
      }
      if v < VALOR_MIN || v > VALOR_MAX {
        return Fail(ForaDoIntervalo);
      }
      return Pass;
    }

    /** The right-to-left loop over the reais: the digits seen so far and
        the number of digits since the last `.`. */
    static method VarrerReais(reais: string) returns (r: Outcome<ErroDinheiro>, numerico: string)
      requires |reais| > 0
      ensures r == Pass ==> ReaisValidos(reais)
      ensures r != Pass ==> !ReaisValidos(reais)
      ensures r != Pass ==> r in {Fail(PontoInicial), Fail(PontoMalPosicionado), Fail(CaracterInvalido)}
      ensures numerico == Digitos(reais)
    {
      numerico := "";
      var desdeUltimoPonto := 0;
      var i := |reais| - 1;
      while i >= 0
        invariant -1 <= i < |reais|
        invariant numerico == Digitos(reais[i + 1..])
        invariant desdeUltimoPonto == DigitosIniciais(reais[i + 1..])
        invariant forall j :: i < j < |reais| ==> IsDigit(reais[j]) || reais[j] == '.'
        invariant forall j :: i < j < |reais| && reais[j] == '.' ==> PontoBemPosto(reais, j)
      {
        var c := reais[i];
        UmPasso(reais, i);
        if IsDigit(c) {
          numerico := [c] + numerico;
          desdeUltimoPonto := desdeUltimoPonto + 1;
        } else if c == '.' {
          if i == 0 {
            assert !PontoBemPosto(reais, i);
            return Fail(PontoInicial), Digitos(reais);
          }
          if desdeUltimoPonto != 3 {
            PontoPelaContagem(reais, i);
            assert !PontoBemPosto(reais, i);
            return Fail(PontoMalPosicionado), Digitos(reais);
          }
          PontoPelaContagem(reais, i);
          desdeUltimoPonto := 0;
        } else {
          assert !(IsDigit(reais[i]) || reais[i] == '.');
          return Fail(CaracterInvalido), Digitos(reais);
        }
        i := i - 1;
      }
      assert reais[0..] == reais;
      return Pass, numerico;
    }

    /** Validates, then keeps the digits of the text read as one number of
        centavos (the `stoi` never overflows: the value is at most
        100.000.000). */
    method SetValor(s: string) returns (r: Outcome<ErroDinheiro>)
      modifies this
      ensures r == Pass <==> DinheiroValido(s)
      ensures valor == if r == Pass then Valor(s) else old(valor)
    {
      r := Validar(s);
      if r != Pass {
        return;
      }
      var centavos := "";
      for k := 0 to |s|
        invariant centavos == Digitos(s[..k])
      {
        assert s[..k + 1] == s[..k] + [s[k]];
        DigitosConcatenados(s[..k], [s[k]]);
        if IsDigit(s[k]) {
          centavos := centavos + [s[k]];
        }
      }
      assert s[..|s|] == s;
      valor := ValorDecimal(centavos);
    }

    /** Pads `to_string(valor)` with zeros to three characters, splits off
        the last two as centavos and groups the rest from the right. */
    method GetValor() returns (r: string)
      ensures r == Formatar(valor)
    {
      var s := ParaTexto(valor);
      while |s| < 3
        invariant Preencher(s) == Preencher(ParaTexto(valor))
        decreases 3 - |s|
      {
        s := "0" + s;
      }
      var centavos := s[|s| - 2..];
      var reais := s[..|s| - 2];
      var formatado := AgruparReais(reais);
      return formatado + "," + centavos;
    }

    /** The grouping loop of getValor: from the right, a `.` after every
        third digit that is not the first. */
    static method AgruparReais(reais: string) returns (formatado: string)
      ensures formatado == Agrupar(reais)
    {
      formatado := "";
      var contador := 0;
      var i := |reais| - 1;
      while i >= 0
        invariant -1 <= i < |reais|
        invariant 0 <= contador <= 3
        invariant i >= 0 ==> contador == Resto3(|reais| - i - 1)
        invariant formatado ==
          (if i >= 0 && i + 1 < |reais| && contador == 0 then "." else "") + Agrupar(reais[i + 1..])
      {
        AgruparPrefixo(reais, i, contador, formatado);
        Resto3Sucessor(|reais| - i - 1);
        formatado := [reais[i]] + formatado;
        contador := contador + 1;
        if contador == 3 && i > 0 {
          formatado := "." + formatado;
          contador := 0;
        }
        i := i - 1;
      }
      assert reais[0..] == reais;
    }
  }

  // ---------------------------------------------------------------------
  // Lemmas about the scan.

  /** The digits of a concatenation are the digits of each side. */
  lemma {:induction false} DigitosConcatenados(a: string, b: string)
    ensures Digitos(a + b) == Digitos(a) + Digitos(b)
    decreases |a|
  {
    if |a| > 0 {
      assert (a + b)[1..] == a[1..] + b;
      DigitosConcatenados(a[1..], b);
    } else {
      assert a + b == b;
    }
  }

  /** The digit filter and the digit run, one character further left. */
  lemma UmPasso(s: string, i: nat)
    requires i < |s|
    ensures Digitos(s[i..]) == (if IsDigit(s[i]) then [s[i]] else []) + Digitos(s[i + 1..])
    ensures DigitosIniciais(s[i..]) == if IsDigit(s[i]) then 1 + DigitosIniciais(s[i + 1..]) else 0
  {
    assert s[i..][1..] == s[i + 1..];
  }

  /** The digits of a valid-format text are those of its reais followed by
      its centavos. */
  lemma DigitosDoTexto(s: string, p: nat)
    requires p + 3 == |s| && s[p] == ',' && IsDigit(s[p + 1]) && IsDigit(s[p + 2])
    ensures Digitos(s) == Digitos(s[..p]) + s[p + 1..]
  {
    assert s == s[..p] + ([','] + s[p + 1..]);
    DigitosConcatenados(s[..p], [','] + s[p + 1..]);
    assert ([','] + s[p + 1..])[1..] == s[p + 1..];
    DigitosDeDigitos(s[p + 1..]);
  }

  /** A string of digits is its own digit filter. */
  lemma {:induction false} DigitosDeDigitos(s: string)
    requires SoDigitos(s)
    ensures Digitos(s) == s
    decreases |s|
  {
    if |s| > 0 {
      DigitosDeDigitos(s[1..]);
    }
  }

  /** The C++ counter check at a `.` is the placement rule. */
  lemma PontoPelaContagem(r: string, j: nat)
    requires 0 < j < |r|
    ensures DigitosIniciais(r[j + 1..]) == 3 <==> PontoBemPosto(r, j)
  {
    var t := r[j + 1..];
    if |t| >= 3 && IsDigit(t[0]) && IsDigit(t[1]) && IsDigit(t[2]) {
      assert t[1..][1..] == t[2..] && t[2..][1..] == t[3..];
      assert DigitosIniciais(t) == 1 + DigitosIniciais(t[1..]);
      assert DigitosIniciais(t[1..]) == 1 + DigitosIniciais(t[2..]);
      assert DigitosIniciais(t[2..]) == 1 + DigitosIniciais(t[3..]);
      assert DigitosIniciais(t[3..]) == 0 <==> |t| == 3 || !IsDigit(t[3]);
    } else if |t| >= 2 && IsDigit(t[0]) && IsDigit(t[1]) {
      assert t[1..][1..] == t[2..];
      assert DigitosIniciais(t) == 1 + DigitosIniciais(t[1..]);
      assert DigitosIniciais(t[1..]) == 1 + DigitosIniciais(t[2..]);
      assert DigitosIniciais(t[2..]) == 0;
    } else if |t| >= 1 && IsDigit(t[0]) {
      assert DigitosIniciais(t) == 1 + DigitosIniciais(t[1..]);
      assert DigitosIniciais(t[1..]) == 0;
    }
  }

  // ---------------------------------------------------------------------
  // Lemmas about getValor.

  /** `n % 3`, by repeated subtraction. */
  function Resto3(n: nat): (r: nat)
    ensures r < 3
  {
    if n < 3 then n else Resto3(n - 3)
  }

  /** The remainder of a successor: the C++ counter goes 0, 1, 2, 0, ... */
  lemma {:induction false} Resto3Sucessor(n: nat)
    ensures Resto3(n + 1) == if Resto3(n) == 2 then 0 else Resto3(n) + 1
  {
    if n >= 3 {
      Resto3Sucessor(n - 3);
    }
  }

  /** One step of `Agrupar` on a string longer than three. */
  lemma AgruparPasso(r: string)
    requires |r| > 3
    ensures Agrupar(r) == Agrupar(r[..|r| - 3]) + "." + r[|r| - 3..]
  {
  }

  /** Grouping a string with one more character in front: a `.` follows it
      exactly when the rest is a non-empty multiple of three long. */
  lemma {:induction false} AgruparNaFrente(x: char, t: string)
    ensures Agrupar([x] + t) ==
      if Resto3(|t|) == 0 && |t| > 0 then [x] + "." + Agrupar(t) else [x] + Agrupar(t)
    decreases |t|
  {
    var xt := [x] + t;
    if |t| < 3 {
      assert Agrupar(xt) == xt && Agrupar(t) == t;
    } else if |t| == 3 {
      assert xt[..|xt| - 3] == [x] && xt[|xt| - 3..] == t;
      AgruparPasso(xt);
      assert Agrupar([x]) == [x] && Agrupar(t) == t;
    } else {
      var u, w := t[..|t| - 3], t[|t| - 3..];
      assert xt[..|xt| - 3] == [x] + u && xt[|xt| - 3..] == w;
      AgruparPasso(xt);
      AgruparPasso(t);
      AgruparNaFrente(x, u);
      var au := Agrupar(u);
      assert Resto3(|t|) == Resto3(|u|) && |u| > 0;
      assert Agrupar(xt) == Agrupar([x] + u) + "." + w;
      assert Agrupar(t) == au + "." + w;
      if Resto3(|t|) == 0 {
        assert Agrupar([x] + u) == [x] + "." + au;
        Associar([x] + ".", au, "." + w);
        Associar(au, ".", w);
        assert Agrupar(xt) == [x] + "." + Agrupar(t);
      } else {
        assert Agrupar([x] + u) == [x] + au;
        Associar([x], au, "." + w);
        Associar(au, ".", w);
        assert Agrupar(xt) == [x] + Agrupar(t);
      }
    }
  }

  /** One step of the grouping loop: the digit at `i` put in front of what
      the loop has built so far groups `reais[i..]`. */
  lemma AgruparPrefixo(reais: string, i: nat, contador: nat, formatado: string)
    requires i < |reais| && contador == Resto3(|reais| - i - 1)
    requires formatado ==
      (if i + 1 < |reais| && contador == 0 then "." else "") + Agrupar(reais[i + 1..])
    ensures [reais[i]] + formatado == Agrupar(reais[i..])
  {
    var x, t := reais[i], reais[i + 1..];
    assert |t| == |reais| - i - 1;
    assert [x] + t == reais[i..];
    AgruparNaFrente(x, t);
    if contador == 0 && |t| > 0 {
      assert formatado == "." + Agrupar(t);
      assert Agrupar(reais[i..]) == [x] + "." + Agrupar(t);
      Associar([x], ".", Agrupar(t));
    } else {
      assert formatado == Agrupar(t);
      assert Agrupar(reais[i..]) == [x] + Agrupar(t);
    }
  }

  /** Padding keeps the digits and the number they denote. */
  lemma {:induction false} PreencherValor(s: string)
    requires SoDigitos(s)
    ensures SoDigitos(Preencher(s)) && ValorDecimal(Preencher(s)) == ValorDecimal(s)
    decreases 3 - |s|
  {
    if |s| < 3 {
      ZeroAEsquerda(s);
      PreencherValor("0" + s);
    }
  }

  /** A leading zero does not change the value. */
  lemma {:induction false} ZeroAEsquerda(s: string)
    requires SoDigitos(s)
    ensures SoDigitos("0" + s) && ValorDecimal("0" + s) == ValorDecimal(s)
    decreases |s|
  {
    var z := "0" + s;
    if |s| > 0 {
      assert z[..|z| - 1] == "0" + s[..|s| - 1];
      ZeroAEsquerda(s[..|s| - 1]);
    }
  }

  /** `to_string` and reading the digits back are inverse. */
  lemma {:induction false} DecimalValor(n: nat)
    ensures ValorDecimal(Decimal(n)) == n
  {
    if n >= 10 {
      var d := Decimal(n);
      assert d[..|d| - 1] == Decimal(n / 10);
      DecimalValor(n / 10);
    }
  }

  /** Grouping adds only `.` characters: the digits stay as they were. */
  lemma {:induction false} AgruparDigitos(r: string)
    requires SoDigitos(r)
    ensures Digitos(Agrupar(r)) == r
    ensures forall j :: 0 <= j < |Agrupar(r)| ==> IsDigit(Agrupar(r)[j]) || Agrupar(r)[j] == '.'
    decreases |r|
  {
    if |r| <= 3 {
      DigitosDeDigitos(r);
    } else {
      var u, v := r[..|r| - 3], r[|r| - 3..];
      assert SoDigitos(u) && SoDigitos(v);
      var a := Agrupar(u);
      var g := a + "." + v;
      assert Agrupar(r) == g;
      AgruparDigitos(u);
      assert Digitos(".") == "";
      DigitosConcatenados(a, ".");
      assert Digitos(a + ".") == u;
      DigitosConcatenados(a + ".", v);
      DigitosDeDigitos(v);
      assert r == u + v;
      forall j | 0 <= j < |g| ensures IsDigit(g[j]) || g[j] == '.' {
        if j > |a| {
          assert g[j] == v[j - |a| - 1];
        } else if j < |a| {
          assert g[j] == a[j];
        }
      }
    }
  }

  /** Grouping places every `.` where Dinheiro::validar wants it. */
  lemma {:induction false} AgruparPontos(r: string)
    requires SoDigitos(r) && |r| > 0
    ensures ReaisValidos(Agrupar(r))
    decreases |r|
  {
    AgruparDigitos(r);
    if |r| > 3 {
      var u, v := r[..|r| - 3], r[|r| - 3..];
      AgruparPontos(u);
      var a := Agrupar(u);
      var g := a + "." + v;
      assert Agrupar(r) == g;
      forall j | 0 <= j < |g| && g[j] == '.' ensures PontoBemPosto(g, j) {
        if j < |a| {
          assert PontoBemPosto(a, j);
          if j + 4 < |a| {
            assert g[j + 4] == a[j + 4];
          }
        }
      }
    }
  }

  /** Grouping brings in no comma. */
  lemma AgruparSemVirgula(r: string)
    requires SoDigitos(r)
    ensures ',' !in Agrupar(r)
  {
    AgruparDigitos(r);
  }

  /** A text put together from valid reais and two centavo digits has a
      valid format, and denotes the digits of the reais followed by the
      centavos. */
  lemma FormatoPorPartes(reais: string, centavos: string)
    requires ReaisValidos(reais) && ',' !in reais
    requires |centavos| == 2 && SoDigitos(centavos)
    ensures FormatoValido(reais + "," + centavos)
    ensures Valor(reais + "," + centavos) == ValorDecimal(Digitos(reais) + centavos)
  {
    var f := reais + "," + centavos;
    Fatias(reais, ',', centavos);
    PrimeiroIndiceUnico(f, ',', |reais|);
    assert ',' !in f[|reais| + 1..];
    DigitosDoTexto(f, |reais|);
  }

  /** The padded `to_string` of a non-negative value is a string of digits
      that denotes it. */
  lemma TextoPreenchido(c: nat)
    ensures SoDigitos(Preencher(ParaTexto(c)))
    ensures ValorDecimal(Preencher(ParaTexto(c))) == c
  {
    DecimalValor(c);
    PreencherValor(ParaTexto(c));
  }

  /** Round trip: for every value in the accepted range, the text getValor
      returns is accepted by setValor and stores the same value again. */
  lemma FormatarValido(c: int)
    requires VALOR_MIN <= c <= VALOR_MAX
    ensures DinheiroValido(Formatar(c))
    ensures Valor(Formatar(c)) == c
  {
    var s := Preencher(ParaTexto(c));
    TextoPreenchido(c);
    var reais, centavos := s[..|s| - 2], s[|s| - 2..];
    assert SoDigitos(reais) && SoDigitos(centavos);
    var g := Agrupar(reais);
    assert Formatar(c) == g + "," + centavos;
    AgruparPontos(reais);
    AgruparSemVirgula(reais);
    FormatoPorPartes(g, centavos);
    AgruparDigitos(reais);
    assert reais + centavos == s;
  }

  // ---------------------------------------------------------------------
  // Examples.

  /** Where the comma of an example is. */
  lemma VirgulaEm(s: string, p: nat)
    requires p < |s| && s[p] == ',' && forall i :: 0 <= i < p ==> s[i] != ','
    ensures Encontrar(s, ',') == Some(p)
  {
    assert ',' !in s[..p];
    PrimeiroIndiceUnico(s, ',', p);
  }

  /** `123456` read as digits. */
  lemma Valor123456()
    ensures ValorDecimal("123456") == 123456
  {
    assert "123456"[..5] == "12345" && "12345"[..4] == "1234" && "1234"[..3] == "123";
    assert "123"[..2] == "12" && "12"[..1] == "1" && "1"[..0] == "";
    assert ValorDecimal("1") == 1;
    assert ValorDecimal("12") == 12;
    assert ValorDecimal("123") == 123;
    assert ValorDecimal("1234") == 1234;
    assert ValorDecimal("12345") == 12345;
  }

  /** `1234,56` is accepted although its reais have no separator: only the
      groups to the right of a `.` are checked. */
  lemma ExemploSemSeparador()
    ensures DinheiroValido("1234,56") && Valor("1234,56") == 123456
  {
    assert ReaisValidos("1234");
    FormatoPorPartes("1234", "56");
    assert "1234" + "," + "56" == "1234,56";
    DigitosDeDigitos("1234");
    assert "1234" + "56" == "123456";
    Valor123456();
  }

  lemma DigitosComSeparador()
    ensures Digitos("1.234") == "1234"
  {
    assert "1.234" == "1" + ("." + "234");
    DigitosConcatenados("1", "." + "234");
    DigitosConcatenados(".", "234");
    DigitosDeDigitos("1");
    DigitosDeDigitos("234");
  }

  /** `1.234,56` is accepted and denotes the same value. */
  lemma ExemploComSeparador()
    ensures DinheiroValido("1.234,56") && Valor("1.234,56") == 123456
  {
    assert PontoBemPosto("1.234", 1);
    assert ReaisValidos("1.234");
    FormatoPorPartes("1.234", "56");
    assert "1.234" + "," + "56" == "1.234,56";
    DigitosComSeparador();
    assert "1234" + "56" == "123456";
    Valor123456();
  }

  /** `000000000100` spells 100: leading zeros do not count. */
  lemma ValorComZeros()
    ensures ValorDecimal("000000000100") == 100
  {
    var t := "100";
    assert t[..2] == "10" && "10"[..1] == "1" && "1"[..0] == "";
    for k := 0 to 9
      invariant SoDigitos(t) && ValorDecimal(t) == 100 && |t| == 3 + k
      invariant forall i :: 0 <= i < k ==> t[i] == '0'
      invariant t[k..] == "100"
    {
      ZeroAEsquerda(t);
      t := "0" + t;
    }
    assert t == "000000000100";
  }

  /** Leading zeros are accepted: all twelve digits of `0000000001,00` reach
      `stoi`, and the number they spell is still within the range. */
  lemma ExemploZerosAEsquerda()
    ensures DinheiroValido("0000000001,00") && Valor("0000000001,00") == 100
    ensures Digitos("0000000001,00") == "000000000100"
  {
    assert ReaisValidos("0000000001");
    FormatoPorPartes("0000000001", "00");
    assert "0000000001" + "," + "00" == "0000000001,00";
    DigitosEmTornoDaVirgula("0000000001", "00");
    assert "0000000001" + "00" == "000000000100";
    ValorComZeros();
  }

  /** With digits on both sides, the digit filter drops exactly the comma. */
  lemma DigitosEmTornoDaVirgula(reais: string, centavos: string)
    requires SoDigitos(reais) && SoDigitos(centavos)
    ensures Digitos(reais + "," + centavos) == reais + centavos
  {
    var comVirgula := reais + ",";
    assert Digitos(",") == "";
    DigitosConcatenados(reais, ",");
    DigitosDeDigitos(reais);
    assert Digitos(comVirgula) == reais;
    DigitosConcatenados(comVirgula, centavos);
    DigitosDeDigitos(centavos);
  }

  /** `0,00` is well formed but below the minimum. */
  lemma ExemploZero()
    ensures FormatoValido("0,00") && !DinheiroValido("0,00")
  {
    var s := "0,00";
    PrimeiroIndiceUnico(s, ',', 1);
    assert s[..1] == "0" && s[2..] == "00";
    DigitosDoTexto(s, 1);
    assert Digitos(s) == "000";
    assert "000"[..2] == "00" && "00"[..1] == "0";
  }

  /** Reais with a separator followed by two digits are rejected. */
  lemma ExemploGrupoCurto()
    ensures !ReaisValidos("1.23")
  {
    assert !PontoBemPosto("1.23", 1);
  }

  /** One centavo digit is rejected. */
  lemma ExemploUmCentavo()
    ensures !FormatoValido("1234,5")
  {
    VirgulaEm("1234,5", 4);
  }
}
