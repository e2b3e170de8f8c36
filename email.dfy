/** EMAIL (primary key of Gerente and Hospede), dominios.cpp EMAIL::validar:
    split at the first `@`; a local part of at most 64 and a domain of at
    most 255 characters; each part, once lower-cased, made of a-z, 0-9, `.`
    and `-`, not starting or ending with `.` or `-` and without two of them in
    a row. On success the caller's string is replaced by its lower-cased
    form. */
module Emails {
  import opened Wrappers
  import opened Ascii
  import opened Cadeias

  /** dominios.hpp: EMAIL::MAX_PARTE_LOCAL and MAX_DOMINIO. */
  const MAX_PARTE_LOCAL := 64
  const MAX_DOMINIO := 255

  predicate EhEspecial(c: char) { c == '.' || c == '-' }

  predicate CaracterDeEmail(c: char) { IsLower(c) || IsDigit(c) || EhEspecial(c) }

  /** What the scan loop of one part accepts (the part already lower-cased):
      allowed characters only, no special character first, and no two
      special characters in a row. */
  predicate VarreduraAceita(p: string)
  {
    (forall i :: 0 <= i < |p| ==> CaracterDeEmail(p[i]))
    && (|p| > 0 ==> !EhEspecial(p[0]))
    && (forall i :: 0 <= i < |p| - 1 ==> !(EhEspecial(p[i]) && EhEspecial(p[i + 1])))
  }

  /** A valid lower-cased part: the scan accepts it, it is not empty and its
      last character is not special. */
  predicate ParteValida(p: string)
  {
    VarreduraAceita(p) && |p| > 0 && !EhEspecial(p[|p| - 1])
  }

  /** The text before and after the first `@` of `e`. */
  function Partes(e: string): (string, string)
    requires '@' in e
  {
    var a := Encontrar(e, '@').value;
    (e[..a], e[a + 1..])
  }

  /** The local part holds no `@`, and the address is the local part, the
      `@` and the domain. */
  lemma PartesReconstroem(e: string)
    requires '@' in e
    ensures '@' !in Partes(e).0 && e == Partes(e).0 + "@" + Partes(e).1
  {
    var a := Encontrar(e, '@').value;
    assert e == e[..a] + [e[a]] + e[a + 1..];
  }

  /** `e` has an `@`, and the parts around the first one are within their
      length limits. */
  predicate TamanhosAceitos(e: string)
  {
    '@' in e && |Partes(e).0| <= MAX_PARTE_LOCAL && |Partes(e).1| <= MAX_DOMINIO
  }

  /** The scan accepts the lower-cased part, which is not empty and ends in a
      special character. */
  predicate TerminaEmEspecial(parte: string)
  {
    var p := Lower(parte);
    VarreduraAceita(p) && |p| > 0 && EhEspecial(p[|p| - 1])
  }

  /** The accept set of EMAIL::validar, an empty part rejected. */
  predicate EmailValido(e: string)
  {
    '@' in e
    && var (local, dominio) := Partes(e);
    |local| <= MAX_PARTE_LOCAL && |dominio| <= MAX_DOMINIO
    && ParteValida(Lower(local)) && ParteValida(Lower(dominio))
  }

  /** The exception messages of EMAIL::validar; `ParteLocalVazia` and
      `DominioVazio` stand where the C++ code reads before an empty
      string. */
  datatype ErroEmail =
    | SemArroba
    | ParteLocalLonga
    | DominioLongo
    | CaracterInvalido
    | EspecialInicialOuRepetido
    | ParteLocalVazia
    | ParteLocalTermina
    | DominioVazio
    | DominioTermina

  class EMAIL {
    var email: string

    constructor FromValid(e: string)
      requires EmailValido(e) && e == Lower(e)
      ensures email == e
    {
      email := e;
    }

    /** `EMAIL(std::string&)` calls the setter, which throws on an invalid
        address; `Criar` returns the object only when it would not throw, and
        `saida` is what the caller's string holds afterwards. */
    static method Criar(e: string) returns (r: Outcome<ErroEmail>, o: EMAIL?, saida: string)
      ensures r == Pass <==> EmailValido(e)
      ensures saida == if r == Pass then Lower(e) else e
      ensures r == Pass ==> o != null && fresh(o) && o.email == Lower(e)
      ensures r != Pass ==> o == null
    {
      r, saida := Validar(e);
      if r == Pass {
        NormalizadoValido(e);
        o := new EMAIL.FromValid(saida);
      } else {
        o := null;
      }
    }

    /** Lower-cases one part character by character and runs the checks of
        the C++ loop on it, then the check of its last character. */
    static method VerificarParte(parte: string, erroVazia: ErroEmail, erroTermina: ErroEmail)
      returns (r: Outcome<ErroEmail>, baixa: string)
      requires erroVazia != CaracterInvalido && erroVazia != EspecialInicialOuRepetido
      requires erroTermina != CaracterInvalido && erroTermina != EspecialInicialOuRepetido
      requires erroVazia != erroTermina
      ensures r == Pass <==> ParteValida(Lower(parte))
      ensures r == Fail(CaracterInvalido) || r == Fail(EspecialInicialOuRepetido) <==>
        !VarreduraAceita(Lower(parte))
      ensures r == Fail(erroVazia) <==> VarreduraAceita(Lower(parte)) && |parte| == 0
      ensures r == Fail(erroTermina) <==>
        VarreduraAceita(Lower(parte)) && |parte| > 0 && EhEspecial(Lower(parte)[|parte| - 1])
      ensures r == Pass || r == Fail(CaracterInvalido) || r == Fail(EspecialInicialOuRepetido)
        || r == Fail(erroVazia) || r == Fail(erroTermina)
      ensures baixa == Lower(parte)
    {
      baixa := parte;
      var ultimoEspecial := true;
      var i := 0;
      while i < |parte|
        invariant 0 <= i <= |parte| && |baixa| == |parte|
        invariant forall j :: 0 <= j < i ==> baixa[j] == Lower(parte)[j]
        invariant forall j :: i <= j < |parte| ==> baixa[j] == parte[j]
        invariant forall j :: 0 <= j < i ==> CaracterDeEmail(baixa[j])
        invariant i > 0 ==> !EhEspecial(baixa[0])
        invariant forall j :: 0 <= j < i - 1 ==> !(EhEspecial(baixa[j]) && EhEspecial(baixa[j + 1]))
        invariant ultimoEspecial <==> i == 0 || EhEspecial(baixa[i - 1])
      {
        var c := ToLower(baixa[i]);
        baixa := baixa[i := c];
        if !(('a' <= c <= 'z') || ('0' <= c <= '9') || c == '.' || c == '-') {
          assert !CaracterDeEmail(Lower(parte)[i]);
          return Fail(CaracterInvalido), Lower(parte);
        }
        if c == '.' || c == '-' {
          if ultimoEspecial {
            assert i == 0 || EhEspecial(Lower(parte)[i - 1]);
            return Fail(EspecialInicialOuRepetido), Lower(parte);
          }
          ultimoEspecial := true;
        } else {
          ultimoEspecial := false;
        }
        i := i + 1;
      }
      assert baixa == Lower(parte);
      if |baixa| == 0 {
        return Fail(erroVazia), baixa;
      }
      if baixa[|baixa| - 1] == '.' || baixa[|baixa| - 1] == '-' {
        return Fail(erroTermina), baixa;
      }
      return Pass, baixa;
    }

    /** `saida` is what the caller's string holds afterwards: its lower-cased
        form on success, the string unchanged on failure. */
    static method Validar(e: string) returns (r: Outcome<ErroEmail>, saida: string)
      ensures r == Pass <==> EmailValido(e)
      ensures r == Fail(SemArroba) <==> '@' !in e
      ensures r == Fail(ParteLocalLonga) <==> '@' in e && |Partes(e).0| > MAX_PARTE_LOCAL
      ensures r == Fail(DominioLongo) <==>
        '@' in e && |Partes(e).0| <= MAX_PARTE_LOCAL && |Partes(e).1| > MAX_DOMINIO
      ensures r == Fail(ParteLocalVazia) <==> TamanhosAceitos(e) && Partes(e).0 == ""
      ensures r == Fail(ParteLocalTermina) <==> TamanhosAceitos(e) && TerminaEmEspecial(Partes(e).0)
      ensures r == Fail(DominioVazio) <==>
        TamanhosAceitos(e) && ParteValida(Lower(Partes(e).0)) && Partes(e).1 == ""
      ensures r == Fail(DominioTermina) <==>
        TamanhosAceitos(e) && ParteValida(Lower(Partes(e).0)) && TerminaEmEspecial(Partes(e).1)
      ensures saida == if r == Pass then Lower(e) else e
    {
      var arroba := Encontrar(e, '@');
      if arroba.None? {
        return Fail(SemArroba), e;
      }
      var parteLocal := e[..arroba.value];
      var dominio := e[arroba.value + 1..];
      assert Partes(e) == (parteLocal, dominio);
      if |parteLocal| > MAX_PARTE_LOCAL {
        return Fail(ParteLocalLonga), e;
      }
      if |dominio| > MAX_DOMINIO {
        return Fail(DominioLongo), e;
      }
      var rl, baixaLocal := VerificarParte(parteLocal, ParteLocalVazia, ParteLocalTermina);
      if rl != Pass {
        return rl, e;
      }
      var rd, baixaDominio := VerificarParte(dominio, DominioVazio, DominioTermina);
      if rd != Pass {
        return rd, e;
      }
      LowerPartes(e);
      return Pass, baixaLocal + "@" + baixaDominio;
    }

    /** Stores the lower-cased address and, like the C++ reference parameter,
        hands it back to the caller. */
    method SetEmail(e: string) returns (r: Outcome<ErroEmail>, saida: string)
      modifies this
      ensures r == Pass <==> EmailValido(e)
      ensures saida == if r == Pass then Lower(e) else e
      ensures email == if r == Pass then Lower(e) else old(email)
    {
      r, saida := Validar(e);
      if r == Pass {
        email := saida;
      }
    }
  }

  /** Lower-casing keeps the first `@` where it was. */
  lemma LowerArroba(e: string)
    requires '@' in e
    ensures '@' in Lower(e)
    ensures Encontrar(Lower(e), '@') == Encontrar(e, '@')
  {
    var a := Encontrar(e, '@').value;
    var l := Lower(e);
    assert l[a] == '@';
    assert '@' !in l[..a] by {
      forall i | 0 <= i < a ensures l[..a][i] != '@' {
        assert e[..a][i] == e[i];
      }
    }
    PrimeiroIndiceUnico(l, '@', a);
  }

  /** The lower-cased address is the lower-cased local part, the `@` and the
      lower-cased domain. */
  lemma LowerPartes(e: string)
    requires '@' in e
    ensures var a := Encontrar(e, '@').value;
      Lower(e) == Lower(e[..a]) + "@" + Lower(e[a + 1..])
  {
    var a := Encontrar(e, '@').value;
    LowerEmTorno(e, a);
    assert ToLower(e[a]) == '@';
  }

  /** The stored form is valid and lower-case: validating it again returns
      it unchanged, so normalisation is idempotent. */
  lemma NormalizadoValido(e: string)
    requires EmailValido(e)
    ensures EmailValido(Lower(e))
    ensures Lower(Lower(e)) == Lower(e)
  {
    var a := Encontrar(e, '@').value;
    var x, y := Lower(e[..a]), Lower(e[a + 1..]);
    var l := Lower(e);
    LowerArroba(e);
    LowerPartes(e);
    Fatias(x, '@', y);
    assert l[..a] == x;
    assert l[a + 1..] == y;
    assert Partes(l) == (x, y);
    LowerIdempotente(e);
    LowerIdempotente(e[..a]);
    LowerIdempotente(e[a + 1..]);
  }

  // ---------------------------------------------------------------------
  // The C++ code as written reads `part[part.length() - 1]` also when the
  // part is empty, which is undefined behaviour.

  /** The verdict of the C++ checks on one lower-cased part: `None` where it
      reads before the start of an empty string. */
  function ParteComoEscrita(p: string): Option<bool>
  {
    if !VarreduraAceita(p) then Some(false)
    else if |p| == 0 then None
    else Some(!EhEspecial(p[|p| - 1]))
  }

  /** The verdict of EMAIL::validar as written: `None` where its behaviour is
      undefined. The domain is examined only when the local part passed. */
  function EmailComoEscrito(e: string): Option<bool>
  {
    if '@' !in e then Some(false)
    else
      var (local, dominio) := Partes(e);
      if |local| > MAX_PARTE_LOCAL || |dominio| > MAX_DOMINIO then Some(false)
      else match ParteComoEscrita(Lower(local))
        case None => None
        case Some(false) => Some(false)
        case Some(true) => ParteComoEscrita(Lower(dominio))
  }

  /** Wherever the C++ code is defined, `EmailValido` agrees with it; it is
      undefined exactly when a part that passed every earlier check is
      empty. */
  lemma ComoEscritoConcorda(e: string)
    ensures EmailComoEscrito(e).Some? ==> EmailComoEscrito(e).value == EmailValido(e)
    ensures EmailComoEscrito(e).None? ==> !EmailValido(e) && '@' in e
  {
  }

  /** `@hotel.com` has an empty local part: it reaches the read of the last
      character of an empty string. */
  lemma LocalVazioIndefinido()
    ensures EmailComoEscrito("@hotel.com").None?
    ensures !EmailValido("@hotel.com")
  {
    PrimeiroIndiceUnico("@hotel.com", '@', 0);
    assert Partes("@hotel.com").0 == "";
  }

  /** `admin`, lower-cased, is a valid part. */
  lemma AdminValido()
    ensures Lower("admin") == "admin" && ParteValida("admin")
  {
    LowerSemMaiusculas("admin");
  }

  /** `hotel.com`, lower-cased, is a valid part. */
  lemma HotelValido()
    ensures Lower("hotel.com") == "hotel.com" && ParteValida("hotel.com")
  {
    LowerSemMaiusculas("hotel.com");
  }

  /** `admin@` has an empty domain, and a local part that passes: it
      reaches the same read. */
  lemma DominioVazioIndefinido()
    ensures EmailComoEscrito("admin@").None?
    ensures !EmailValido("admin@")
  {
    var e := "admin@";
    assert '@' !in e[..5];
    PrimeiroIndiceUnico(e, '@', 5);
    assert e[..5] == "admin" && e[6..] == "";
    AdminValido();
  }

  /** `admin@hotel.com` (main.cpp) is accepted. */
  lemma ExemploValido()
    ensures EmailValido("admin@hotel.com")
  {
    var e := "admin@hotel.com";
    assert '@' !in e[..5];
    PrimeiroIndiceUnico(e, '@', 5);
    assert e[..5] == "admin" && e[6..] == "hotel.com";
    AdminValido();
    HotelValido();
  }

  /** An address whose first character is `.` or `-` is rejected: its local
      part is either empty or starts with that character. */
  lemma EspecialInicialRejeitado(e: string)
    requires |e| > 0 && EhEspecial(e[0])
    ensures !EmailValido(e)
  {
    if '@' in e {
      var local := Partes(e).0;
      if |local| > 0 {
        assert local[0] == e[0];
        assert Lower(local)[0] == ToLower(e[0]) == e[0];
      }
    }
  }

  /** `.admin@hotel.com` starts with a special character and is rejected. */
  lemma ExemploInvalido()
    ensures !EmailValido(".admin@hotel.com")
  {
    EspecialInicialRejeitado(".admin@hotel.com");
  }
}
