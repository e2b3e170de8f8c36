/** The entities of entidades.hpp, as records of the values their domain
    objects hold: plain getters and setters, no behaviour of their own. */
module Entidades {
  import opened Datas

  /** Pessoa's Nome and EMAIL, with Gerente's Ramal and Senha. */
  datatype Gerente = Gerente(nome: string, email: string, ramal: int, senha: string)

  /** Pessoa's Nome and EMAIL, with Hospede's Endereco and Cartao. */
  datatype Hospede = Hospede(nome: string, email: string, endereco: string, cartao: string)

  datatype Hotel = Hotel(nome: string, endereco: string, telefone: string, codigo: string)

  /** `diaria` is a Dinheiro's value in centavos. */
  datatype Quarto = Quarto(numero: int, capacidade: int, diaria: int, ramal: int)

  /** `valor` is a Dinheiro's value in centavos. */
  datatype Reserva = Reserva(chegada: DataValor, partida: DataValor, valor: int, codigo: string)

  // The primary keys the containers compare with `getValor()`.

  function EmailDoGerente(g: Gerente): string { g.email }
  function EmailDoHospede(h: Hospede): string { h.email }
  function CodigoDoHotel(h: Hotel): string { h.codigo }
  function NumeroDoQuarto(q: Quarto): int { q.numero }
  function CodigoDaReserva(r: Reserva): string { r.codigo }

  // A default-constructed entity with only its key set, as the services
  // build before a `pesquisar`. String fields start empty as in C++; the
  // integer fields C++ leaves indeterminate are fixed at 0 here.

  const DATA_PADRAO := DataValor(0, "", 0)

  function GerenteComEmail(e: string): Gerente { Gerente("", e, 0, "") }

  function ReservaComCodigo(c: string): Reserva { Reserva(DATA_PADRAO, DATA_PADRAO, 0, c) }
}
