/** The service controllers of servicos.cpp, over the containers they are
    given (the constructor stands for `setContainer`). */
module Servicos {
  import opened Wrappers
  import opened Datas
  import opened Entidades
  import opened Containers

  /** The overlap helper as written: its comparison is commented out, and it
      answers "no overlap" for every pair of stays. */
  function VerificarSobreposicao(chegada1: DataValor, partida1: DataValor,
                                 chegada2: DataValor, partida2: DataValor): (sobrepoe: bool)
    ensures !sobrepoe
  {
    false
  }

  class CntrLNAutenticacao {
    const containerGerentes: ContainerGerente

    constructor (c: ContainerGerente)
      requires c.chave == EmailDoGerente
      ensures containerGerentes == c
    {
      containerGerentes := c;
    }

    /** Looks the email up and compares the stored password with the one
        given. */
    method Autenticar(email: string, senha: string) returns (autenticado: bool)
      requires containerGerentes.chave == EmailDoGerente
      ensures autenticado <==> CredenciaisConferem(containerGerentes.itens, email, senha)
    {
      var sonda := GerenteComEmail(email);
      var achou, gerente := containerGerentes.Pesquisar(sonda);
      autenticado := achou && gerente.senha == senha;
    }
  }

  /** The Gerente found first under `email` has password `senha`. */
  predicate CredenciaisConferem(gerentes: seq<Gerente>, email: string, senha: string)
  {
    match IndiceDe(gerentes, EmailDoGerente, email)
    case None => false
    case Some(i) => gerentes[i].senha == senha
  }

  /** With distinct emails, authentication succeeds exactly when some stored
      Gerente has both that email and that password. */
  lemma CredenciaisPorGerente(gerentes: seq<Gerente>, email: string, senha: string)
    requires ChavesDistintas(gerentes, EmailDoGerente)
    ensures CredenciaisConferem(gerentes, email, senha) <==>
      exists i :: 0 <= i < |gerentes| && gerentes[i].email == email && gerentes[i].senha == senha
  {
    if exists i :: 0 <= i < |gerentes| && gerentes[i].email == email && gerentes[i].senha == senha {
      var i :| 0 <= i < |gerentes| && gerentes[i].email == email && gerentes[i].senha == senha;
      ChaveIdentifica(gerentes, EmailDoGerente, i);
    }
  }

  class CntrLNPessoa {
    const containerGerentes: ContainerGerente

    constructor (c: ContainerGerente)
      requires c.chave == EmailDoGerente
      ensures containerGerentes == c
    {
      containerGerentes := c;
    }

    /** Refuses a Gerente whose email is already stored; otherwise includes
        it. */
    method CriarGerente(gerente: Gerente) returns (criado: bool)
      requires containerGerentes.chave == EmailDoGerente
      modifies containerGerentes
      ensures criado <==> IndiceDe(old(containerGerentes.itens), EmailDoGerente, gerente.email).None?
      ensures containerGerentes.itens ==
        if criado then old(containerGerentes.itens) + [gerente] else old(containerGerentes.itens)
      ensures old(ChavesDistintas(containerGerentes.itens, EmailDoGerente)) ==>
        ChavesDistintas(containerGerentes.itens, EmailDoGerente)
    {
      var sonda := GerenteComEmail(gerente.email);
      var achou, _ := containerGerentes.Pesquisar(sonda);
      if achou {
        return false;
      }
      if ChavesDistintas(containerGerentes.itens, EmailDoGerente) {
        IncluirPreserva(containerGerentes.itens, EmailDoGerente, gerente);
      }
      criado := containerGerentes.Incluir(gerente);
    }
  }

  class CntrLNReserva {
    const containerReservas: ContainerReserva

    constructor (c: ContainerReserva)
      requires c.chave == CodigoDaReserva
      ensures containerReservas == c
    {
      containerReservas := c;
    }

    /** Refuses a duplicate code; otherwise runs the overlap helper against
        every stored reservation, ignores its answer, and includes the
        reservation. Whether it is created does not depend on its dates. */
    method CriarReserva(reserva: Reserva) returns (criada: bool)
      requires containerReservas.chave == CodigoDaReserva
      modifies containerReservas
      ensures criada <==> IndiceDe(old(containerReservas.itens), CodigoDaReserva, reserva.codigo).None?
      ensures containerReservas.itens ==
        if criada then old(containerReservas.itens) + [reserva] else old(containerReservas.itens)
      ensures old(ChavesDistintas(containerReservas.itens, CodigoDaReserva)) ==>
        ChavesDistintas(containerReservas.itens, CodigoDaReserva)
    {
      var sonda := ReservaComCodigo(reserva.codigo);
      var achou, _ := containerReservas.Pesquisar(sonda);
      if achou {
        return false;
      }
      var todas := containerReservas.Listar();
      for i := 0 to |todas|
        invariant containerReservas.itens == old(containerReservas.itens)
      {
        var conflito := VerificarSobreposicao(reserva.chegada, reserva.partida,
                                              todas[i].chegada, todas[i].partida);
      }
      if ChavesDistintas(containerReservas.itens, CodigoDaReserva) {
        IncluirPreserva(containerReservas.itens, CodigoDaReserva, reserva);
      }
      criada := containerReservas.Incluir(reserva);
    }

    /** ContainerReserva::remover. */
    method DeletarReserva(codigo: string) returns (deletada: bool)
      requires containerReservas.chave == CodigoDaReserva
      modifies containerReservas
      ensures deletada <==> IndiceDe(old(containerReservas.itens), CodigoDaReserva, codigo).Some?
      ensures containerReservas.itens ==
        if deletada
        then SemIndice(old(containerReservas.itens),
                       IndiceDe(old(containerReservas.itens), CodigoDaReserva, codigo).value)
        else old(containerReservas.itens)
      ensures old(ChavesDistintas(containerReservas.itens, CodigoDaReserva)) ==>
        ChavesDistintas(containerReservas.itens, CodigoDaReserva)
        && IndiceDe(containerReservas.itens, CodigoDaReserva, codigo).None?
    {
      ghost var antes := containerReservas.itens;
      deletada := containerReservas.Remover(codigo);
      if deletada && ChavesDistintas(antes, CodigoDaReserva) {
        RemoverPreserva(antes, CodigoDaReserva, IndiceDe(antes, CodigoDaReserva, codigo).value);
      }
    }

    /** ContainerReserva::atualizar. */
    method AtualizarReserva(reserva: Reserva) returns (atualizada: bool)
      requires containerReservas.chave == CodigoDaReserva
      modifies containerReservas
      ensures atualizada <==> IndiceDe(old(containerReservas.itens), CodigoDaReserva, reserva.codigo).Some?
      ensures containerReservas.itens ==
        if atualizada
        then old(containerReservas.itens)[
               IndiceDe(old(containerReservas.itens), CodigoDaReserva, reserva.codigo).value := reserva]
        else old(containerReservas.itens)
      ensures old(ChavesDistintas(containerReservas.itens, CodigoDaReserva)) ==>
        ChavesDistintas(containerReservas.itens, CodigoDaReserva)
    {
      ghost var antes := containerReservas.itens;
      atualizada := containerReservas.Atualizar(reserva);
      if atualizada && ChavesDistintas(antes, CodigoDaReserva) {
        AtualizarPreserva(antes, CodigoDaReserva,
                          IndiceDe(antes, CodigoDaReserva, reserva.codigo).value, reserva);
      }
    }

    /** The stored reservation with that code, or a default one carrying
        only the code. */
    method LerReserva(codigo: string) returns (r: Reserva)
      requires containerReservas.chave == CodigoDaReserva
      ensures r == match IndiceDe(containerReservas.itens, CodigoDaReserva, codigo)
        case Some(i) => containerReservas.itens[i]
        case None => ReservaComCodigo(codigo)
      ensures r.codigo == codigo
    {
      var sonda := ReservaComCodigo(codigo);
      var _, encontrada := containerReservas.Pesquisar(sonda);
      r := encontrada;
    }

    /** Every stored reservation, in order. */
    method ListarReservas() returns (l: seq<Reserva>)
      ensures l == containerReservas.itens
    {
      l := containerReservas.Listar();
    }
  }
}
