/** Data (calendar date) of dominios.cpp: a day, a three-letter Portuguese
    month abbreviation (JAN ... DEZ, any case) and a year in 2000-2999, with
    the Gregorian leap-year rule for February. */
module Datas {
  import opened Wrappers
  import opened Ascii

  /** dominios.hpp: Data::ANO_MIN and ANO_MAX. */
  const ANO_MIN := 2000
  const ANO_MAX := 2999

  /** Data::mesValido's table, in calendar order. */
  const MESES: seq<string> :=
    ["JAN", "FEV", "MAR", "ABR", "MAI", "JUN", "JUL", "AGO", "SET", "OUT", "NOV", "DEZ"]

  /** C++ `unsigned short`. */
  type uint16 = x: int | 0 <= x < 0x1_0000

  /** The value a Data object holds once set. */
  datatype DataValor = DataValor(dia: int, mes: string, ano: int)

  /** What Data::letraMaiuscula returns: its loop runs to
      `(unsigned short)size()`, so only the first `|mes| % 65536` characters
      are upper-cased. */
  function Padronizado(mes: string): (r: string)
    ensures |r| == |mes|
    ensures |mes| < 0x1_0000 ==> r == Upper(mes)
  {
    var n := |mes| % 0x1_0000;
    Upper(mes[..n]) + mes[n..]
  }

  /** Data::mesParaIndice: 1 to 12 for a known month, 0 otherwise. */
  function MesParaIndice(mes: string): (k: nat)
    ensures k <= 12
    ensures k != 0 <==> |mes| == 3 && Upper(mes) in MESES
    ensures k != 0 ==> MESES[k - 1] == Upper(mes)
  {
    var m := Padronizado(mes);
    if m == "JAN" then 1
    else if m == "FEV" then 2
    else if m == "MAR" then 3
    else if m == "ABR" then 4
    else if m == "MAI" then 5
    else if m == "JUN" then 6
    else if m == "JUL" then 7
    else if m == "AGO" then 8
    else if m == "SET" then 9
    else if m == "OUT" then 10
    else if m == "NOV" then 11
    else if m == "DEZ" then 12
    else 0
  }

  /** Data::ehBissexto, the Gregorian rule. */
  predicate EhBissexto(ano: int)
  {
    ano % 4 == 0 && (ano % 100 != 0 || ano % 400 == 0)
  }

  /** The switch of Data::diasNoMes on a month index. */
  function DiasDoIndice(k: nat, ano: int): (d: nat)
  {
    match k
    case 1 | 3 | 5 | 7 | 8 | 10 | 12 => 31
    case 4 | 6 | 9 | 11 => 30
    case 2 => if EhBissexto(ano) then 29 else 28
    case _ => 0
  }

  /** Data::diasNoMes: 0 for an unknown month. */
  function DiasNoMes(mes: string, ano: int): (d: nat)
    ensures d == 0 <==> MesParaIndice(mes) == 0
    ensures d != 0 ==> 28 <= d <= 31
    ensures MesParaIndice(mes) == 2 ==> (d == 29 <==> EhBissexto(ano))
  {
    DiasDoIndice(MesParaIndice(mes), ano)
  }

  predicate MesValidoSpec(mes: string)
  {
    |mes| == 3 && Upper(mes) in MESES
  }

  /** The accept set of Data::validar. */
  predicate DataValida(dia: int, mes: string, ano: int)
  {
    ANO_MIN <= ano <= ANO_MAX && MesValidoSpec(mes) && 1 <= dia <= DiasNoMes(mes, ano)
  }

  /** The three exceptions of Data::validar, in the order it checks. */
  datatype ErroData = AnoForaDoIntervalo | MesInvalido | DiaForaDoIntervalo

  class Data {
    var dia: uint16
    var mes: string
    var ano: uint16

    /** The implicit default constructor: `mes` is empty, `dia` and `ano`
        are left uninitialised. */
    constructor ()
      ensures mes == ""
    {
      mes := "";
    }

    function Valor(): DataValor
      reads this
    {
      DataValor(dia, mes, ano)
    }

    static method LetraMaiuscula(mes: string) returns (r: string)
      ensures r == Padronizado(mes)
    {
      r := mes;
      var n := |mes| % 0x1_0000;
      var i := 0;
      while i < n
        invariant 0 <= i <= n
        invariant |r| == |mes|
        invariant r[..i] == Upper(mes[..i]) && r[i..] == mes[i..]
      {
        r := r[i := ToUpper(r[i])];
        i := i + 1;
        assert r[..i] == r[..i - 1] + [r[i - 1]];
        assert mes[..i] == mes[..i - 1] + [mes[i - 1]];
      }
      assert r == r[..n] + r[n..];
    }

    static method MesValido(mes: string) returns (ok: bool)
      ensures ok <==> MesValidoSpec(mes)
    {
      if |mes| != 3 {
        return false;
      }
      var m := LetraMaiuscula(mes);
      var k := 0;
      while k < |MESES|
        invariant 0 <= k <= |MESES|
        invariant forall j :: 0 <= j < k ==> m != MESES[j]
      {
        if m == MESES[k] {
          return true;
        }
        k := k + 1;
      }
      return false;
    }

    static method Validar(dia: uint16, mes: string, ano: uint16) returns (r: Outcome<ErroData>)
      ensures r == Pass <==> DataValida(dia, mes, ano)
      ensures r == Fail(AnoForaDoIntervalo) <==> !(ANO_MIN <= ano <= ANO_MAX)
      ensures r == Fail(MesInvalido) <==> ANO_MIN <= ano <= ANO_MAX && !MesValidoSpec(mes)
      ensures r == Fail(DiaForaDoIntervalo) <==>
        ANO_MIN <= ano <= ANO_MAX && MesValidoSpec(mes) && !(1 <= dia <= DiasNoMes(mes, ano))
    {
      if ano < ANO_MIN || ano > ANO_MAX {
        return Fail(AnoForaDoIntervalo);
      }
      var valido := MesValido(mes);
      if !valido {
        return Fail(MesInvalido);
      }
      var limite := DiasNoMes(mes, ano);
      if dia < 1 || dia > limite {
        return Fail(DiaForaDoIntervalo);
      }
      return Pass;
    }

    /** Stores the month upper-cased. */
    method SetValor(d: uint16, m: string, a: uint16) returns (r: Outcome<ErroData>)
      modifies this
      ensures r == Pass <==> DataValida(d, m, a)
      ensures r == Pass ==> Valor() == DataValor(d, Upper(m), a)
      ensures r != Pass ==> Valor() == old(Valor())
    {
      r := Validar(d, m, a);
      if r == Pass {
        dia := d;
        mes := LetraMaiuscula(m);
        ano := a;
      }
    }
  }

  /** A stored date is valid again and its month is already normalised, so
      setting a Data from another Data's value stores the same value. */
  lemma ArmazenadoEstavel(dia: int, mes: string, ano: int)
    requires DataValida(dia, mes, ano)
    ensures DataValida(dia, Upper(mes), ano)
    ensures Upper(Upper(mes)) == Upper(mes)
    ensures Upper(mes) in MESES
  {
    var u := Upper(mes);
    UpperIdempotente(mes);
    assert Padronizado(u) == Padronizado(mes);
    assert MesParaIndice(u) == MesParaIndice(mes);
  }

  /** The sum of the month lengths of the first `n` months. */
  function DiasAteMes(n: nat, ano: int): nat
  {
    if n == 0 then 0 else DiasAteMes(n - 1, ano) + DiasDoIndice(n, ano)
  }

  /** A leap year, by the rule of Data::ehBissexto, is exactly a year whose
      months add up to 366 days. */
  lemma AnoTem366Dias(ano: int)
    ensures DiasAteMes(12, ano) == (if EhBissexto(ano) then 366 else 365)
    ensures EhBissexto(ano) <==> DiasAteMes(12, ano) == 366
  {
    var f := DiasDoIndice(2, ano);
    assert DiasAteMes(1, ano) == 31;
    assert DiasAteMes(2, ano) == 31 + f;
    assert DiasAteMes(3, ano) == 62 + f;
    assert DiasAteMes(4, ano) == 92 + f;
    assert DiasAteMes(5, ano) == 123 + f;
    assert DiasAteMes(6, ano) == 153 + f;
    assert DiasAteMes(7, ano) == 184 + f;
    assert DiasAteMes(8, ano) == 215 + f;
    assert DiasAteMes(9, ano) == 245 + f;
    assert DiasAteMes(10, ano) == 276 + f;
    assert DiasAteMes(11, ano) == 306 + f;
    assert DiasAteMes(12, ano) == 337 + f;
  }

  /** The century rule inside the accepted range: 2000 and 2400 are leap
      years, 2100, 2200 and 2300 are not, 2024 is. */
  lemma LimitesBissextos()
    ensures EhBissexto(2000) && EhBissexto(2024) && EhBissexto(2400)
    ensures !EhBissexto(2100) && !EhBissexto(2200) && !EhBissexto(2300)
  {
  }

  /** 29 FEV is a date in 2024 and not in 2023; the month is case-blind. */
  lemma Exemplos()
    ensures DataValida(29, "FEV", 2024) && DataValida(29, "fev", 2024)
    ensures !DataValida(29, "FEV", 2023)
    ensures !DataValida(1, "FEB", 2024)
    ensures !DataValida(1, "JAN", 1999)
  {
    assert Upper("FEV") == "FEV" && MESES[1] == "FEV";
    assert Upper("fev") == "FEV";
    assert Upper("FEB") == "FEB";
    assert Upper("JAN") == "JAN" && MESES[0] == "JAN";
  }
}
