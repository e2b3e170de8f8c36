# Hotel management core, modelled in Dafny

This project models the business core of a small C++ hotel-management
system. It covers three layers.

- **Domains** (`dominios.cpp`). Value classes whose setter runs a
  `validar` routine and stores the value only when it is accepted. The
  domains are Numero, Senha, Endereco, Dinheiro, Cartao, Nome,
  Capacidade, Data, Telefone, Codigo, EMAIL and Ramal.
- **Containers** (`containers.cpp`, and its copy `src/containers.cpp`).
  Five in-memory lists keyed by a primary key, with `incluir`, `remover`,
  `pesquisar` and `atualizar`.
- **Services** (`servicos.cpp`):
  - manager authentication;
  - creation of a manager;
  - the create/read/update/delete/list operations on reservations;
  - the overlap helper those operations call.

The model follows the shape of the source:

- Each domain is a Dafny `class` with the field the C++ class stores.
- Each domain has a `static method Validar` that keeps the C++ loop. It is
  proved to accept exactly the strings of a declarative predicate, such as
  `SenhaValida` or `DinheiroValido`, and its error outcomes are tied to
  the checks that raise them.
- Each setter changes its field only on `Pass`.
- An exception (`throw invalid_argument(...)`) becomes
  `Fail(<error kind>)` of the `Outcome` datatype.
- The entities of `entidades.hpp` are datatypes of the stored values.
- The five containers are one generic class `Containers.Tabela<T, K>`. It
  holds a `seq<T>` and a key function; each C++ container is an instance
  of it.
- The services are classes over such a table.

Properties proved beyond each operation's own contract:

- Card check: `Cartao::validar`'s check is the textbook Luhn check, and
  it catches every single-digit error.
- Money round trip: `getValor` formats every accepted amount as a string
  that `validar` accepts and that `setValor` reads back as the same amount.
- EMAIL (see Findings):
  - a normalised address is valid again and is a fixed point of
    lower-casing;
  - the C++ code is undefined on an empty part.
- Leap years: the leap-year rule gives exactly the 366-day years.
- Containers: the containers keep their keys distinct.
- Authentication: authentication succeeds exactly when a stored manager
  has that email and that password.

## Model

| member | source | states |
|---|---|---|
| Inteiros.Numero.Validar | dominios.cpp:9-13 | accepts exactly 1..999 |
| Inteiros.Numero.SetValor | dominios.cpp:15-18 | stores the value exactly when it is accepted, otherwise keeps the old one |
| Inteiros.Capacidade.Validar | dominios.cpp:289-295 | accepts exactly 1..4 (dominios.hpp LIMITE_INFERIOR/SUPERIOR); below 1 reports the lower-bound error, above 4 the upper-bound error |
| Inteiros.Capacidade.SetCapacidade | dominios.cpp:297-300 | stores the capacity exactly when accepted |
| Inteiros.Ramal.Validar | dominios.cpp:489-492 | accepts exactly 0..50 |
| Inteiros.Ramal.SetRamal | dominios.cpp:494-497 | stores the extension exactly when accepted |
| Inteiros.Ramal.Criar | dominios.cpp:499-501 | the converting constructor yields a fresh object holding the value exactly when it is valid, and none otherwise |
| Senhas.PrimeiroPar | dominios.cpp:59-68 | the first position that starts a letter-letter or digit-digit pair, or none when no position does |
| Senhas.Senha.Validar | dominios.cpp:20-69 | reports the first violated rule in the C++ order (length 5, allowed characters, all four classes present, no letter-letter or digit-digit pair); passes exactly for `SenhaValida` |
| Senhas.Senha.SetValor | dominios.cpp:71-74 | stores the password exactly when accepted |
| Senhas.DiagnosticoAceita | dominios.cpp:20-69 | the rule-by-rule verdict passes exactly for the declarative accept set |
| Senhas.AdjacenciaRejeita | dominios.cpp:59-68 | any string with two adjacent letters or two adjacent digits is rejected |
| Senhas.ExemploValido | testes.cpp:11 | the valid fixture `A1!b#` is accepted |
| Senhas.ExemploInvalidoFalhaComposicao | testes.cpp:12 | the invalid fixture `AA1!#` fails the character-class rule |
| Senhas.ExemploDescritoFalhaAdjacencia | testes.hpp:43-44 | the string the header describes, `Aa1!#`, fails the letter-letter rule |
| Enderecos.Endereco.Validar | dominios.cpp:76-111 | accepts exactly `EnderecoValido` (5..30 characters, alphanumerics and `,. `, no special first or last, no `,`/`.` followed by `,`/`.`, every space followed by an alphanumeric); a bad length gives the length error, a character or end error holds exactly when the first loop rejects, a neighbour error exactly when only the second loop rejects |
| Enderecos.Endereco.SetValor | dominios.cpp:113-116 | stores the address exactly when accepted |
| Enderecos.EspacosIsolados | dominios.cpp:106-108 | an accepted address has no two spaces in a row |
| Enderecos.ExemploValido | testes.cpp:15 | the valid fixture is accepted |
| Enderecos.ExemploInvalido | testes.cpp:16 | the invalid fixture, which starts with a space, is rejected |
| Dinheiros.Dinheiro.Validar | dominios.cpp:119-177 | accepts exactly `DinheiroValido` (one comma, two cent digits, a non-empty reais part whose dots each separate three digits, value 1..100000000 centavos); the missing-comma, second-comma, cent-length, cent-digit, empty-reais, overflow of `long long` and out-of-range errors each hold exactly on their condition, in the C++ order |
| Dinheiros.Dinheiro.VarrerReais | dominios.cpp:143-162 | the right-to-left scan of the reais part passes exactly on `ReaisValidos`, fails only with the three scan errors, and collects exactly the digits of its input |
| Dinheiros.Dinheiro.SetValor | dominios.cpp:179-189 | stores the number denoted by the digits of the string exactly when it is accepted |
| Dinheiros.Dinheiro.GetValor | dominios.cpp:191-213 | returns `Formatar(valor)`: the value zero-padded to three digits, reais grouped by dots, comma, two cent digits |
| Dinheiros.Dinheiro.AgruparReais | dominios.cpp:200-209 | the grouping loop puts a dot before every full group of three digits counted from the right |
| Dinheiros.FormatarValido | dominios.cpp:119-213 | round trip: for every value 1..100000000, the string `getValor` produces is accepted by `validar` and `setValor` reads it back as the same value |
| Dinheiros.AgruparPontos | dominios.cpp:143-162 | grouped digits always pass the dot-placement scan |
| Dinheiros.AgruparDigitos | dominios.cpp:200-209 | grouping only inserts dots: removing them gives back the digits |
| Dinheiros.DigitosConcatenados | dominios.cpp:181-186 | the digit filter of setValor distributes over concatenation |
| Dinheiros.PontoPelaContagem | dominios.cpp:150-158 | the counter test `digitosDesdeUltimoPonto != 3` matches the declarative "exactly three digits follow the dot" |
| Dinheiros.DecimalValor | dominios.cpp:192 | the decimal text of `to_string` denotes the number |
| Dinheiros.ExemploComSeparador | dominios.cpp:119-177 | `1.234,56` is accepted with value 123456 |
| Dinheiros.ExemploSemSeparador | dominios.cpp:119-177 | `1234,56` is accepted too (dots are optional) with the same value |
| Dinheiros.ExemploZerosAEsquerda | dominios.cpp:119-188 | `0000000001,00` is accepted with value 100, and all twelve of its digits reach `stoi` |
| Dinheiros.ExemploZero | dominios.cpp:173-175 | `0,00` is well formed but out of range |
| Dinheiros.ExemploGrupoCurto | dominios.cpp:154-156 | `1.23` fails the dot placement |
| Dinheiros.ExemploUmCentavo | dominios.cpp:129-132 | `1234,5` fails the two-cent-digit rule |
| Cartoes.Soma | dominios.cpp:224-235 | the sum the loop builds over the first fifteen digits adds at most 9 per digit, so the `short int` counter cannot overflow |
| Cartoes.Cartao.Validar | dominios.cpp:215-240 | accepts exactly `CartaoValido` (16 digits, check digit of the C++ sum); wrong length and non-digit errors each hold exactly on their condition |
| Cartoes.Cartao.SetValor | dominios.cpp:242-245 | stores the number exactly when accepted |
| Cartoes.CartaoValidoSeLuhn | dominios.cpp:215-240 | on sixteen digits the C++ check equals the textbook Luhn check (sum of all digits, every second from the right doubled with its digits summed, a multiple of ten) |
| Cartoes.SomaPadraoSoma | dominios.cpp:224-235 | the textbook sum is the C++ sum plus the check digit |
| Cartoes.DigitoVerificador | dominios.cpp:236-238 | `(10 - soma % 10) % 10 == d` exactly when `soma + d` is a multiple of ten |
| Cartoes.ErroUnicoDetectado | dominios.cpp:215-240 | changing any single digit of an accepted number makes it rejected |
| Cartoes.ExemploValido | dominios.cpp:215-240 | `4539148803436467` is accepted |
| Cartoes.ExemploInvalido8 | dominios.cpp:215-240 | `4539148803436468` is rejected |
| Nomes.Nome.Validar | dominios.cpp:247-280 | accepts exactly `NomeValido` (5..20 letters and spaces, upper-case first letter, every space followed by an upper-case letter, no trailing space); the length, trailing-space and first-letter errors hold exactly on their conditions, checked in that order |
| Nomes.Nome.SetValor | dominios.cpp:282-285 | stores the name exactly when accepted |
| Nomes.SemEspacoDuplo | dominios.cpp:255-268 | in an accepted name every space is followed by an upper-case letter, never by a space |
| Nomes.Exemplos | testes.cpp:19 | `Maria Silva` and `Admin Hotel` are accepted; a lower-case start or a double space is rejected |
| Datas.Padronizado | dominios.cpp:302-308 | `letraMaiuscula` upper-cases the whole string whenever its length fits the `unsigned short` bound of the loop |
| Datas.Data.LetraMaiuscula | dominios.cpp:302-308 | the loop computes `Padronizado` |
| Datas.MesParaIndice | dominios.cpp:310-325 | 1..12 exactly for a three-letter month of the table, case-blind, and 0 otherwise; the index names the month |
| Datas.DiasNoMes | dominios.cpp:331-344 | 0 exactly for an unknown month, otherwise 28..31; February has 29 days exactly in a leap year |
| Datas.Data.MesValido | dominios.cpp:346-361 | the table loop accepts exactly a three-letter month whose upper-case form is in the table |
| Datas.Data.Validar | dominios.cpp:363-373 | accepts exactly `DataValida`; the year, month and day errors each hold exactly on their condition, in that order |
| Datas.Data.SetValor | dominios.cpp:375-380 | on success stores day, the upper-cased month and year; on failure changes nothing |
| Datas.ArmazenadoEstavel | dominios.cpp:375-380 | a stored date validates again, and its month is already normalised |
| Datas.AnoTem366Dias | dominios.cpp:327-344 | the month lengths sum to 366 exactly in the years `ehBissexto` accepts, otherwise to 365 |
| Datas.LimitesBissextos | dominios.cpp:327-329 | the century rule: 2000 and 2400 are leap years, 2100, 2200 and 2300 are not |
| Datas.Exemplos | dominios.cpp:363-373 | 29 FEV 2024 is valid in either case, 29 FEV 2023, `FEB` and 1999 are not |
| Telefones.Telefone.Validar | dominios.cpp:382-395 | accepts exactly `+` followed by fifteen digits; the missing `+` and the wrong length errors hold exactly on their condition, in that order |
| Telefones.Telefone.SetTelefone | dominios.cpp:397-400 | stores the phone exactly when accepted |
| Telefones.Exemplos | dominios.cpp:382-395 | a thirteen-digit number is rejected, a fifteen-digit one accepted |
| Codigos.Codigo.Validar | dominios.cpp:403-415 | accepts exactly ten characters from a-z and 0-9; a bad length gives the length error |
| Codigos.Codigo.SetCodigo | dominios.cpp:418-422 | stores the code exactly when accepted |
| Codigos.Codigo.Criar | dominios.cpp:424-426 | the converting constructor yields a fresh object holding the code exactly when it is valid |
| Codigos.MaiusculaRejeitada | dominios.cpp:410-414 | any code holding an upper-case letter is rejected |
| Codigos.Exemplos | dominios.cpp:403-415 | `AB12345678` and a nine-character code are rejected; `ab12345678` is accepted |
| Cadeias.Encontrar | dominios.cpp:431 | `std::string::find`: the first index of the character, and none exactly when it does not occur |
| Emails.PartesReconstroem | dominios.cpp:431-438 | the local part, split off at the first `@`, holds no `@`, and the address is the local part, the `@` and the domain |
| Emails.EMAIL.VerificarParte | dominios.cpp:445-472 | one part's lower-casing scan: passes exactly on a valid lower-cased part; the character and special-sequence errors hold exactly when the scan rejects; the empty-part and trailing-special errors hold exactly on their condition; returns the lower-cased part |
| Emails.EMAIL.Validar | dominios.cpp:428-477 | accepts exactly `EmailValido`; the missing-`@`, long-local, long-domain, empty-part and trailing-special errors each hold exactly on their condition, in the C++ order; on success the caller's string becomes its lower-cased form, on failure it is unchanged |
| Emails.EMAIL.SetEmail | dominios.cpp:479-483 | stores the lower-cased address exactly when accepted |
| Emails.EMAIL.Criar | dominios.cpp:485-487 | the converting constructor yields a fresh object holding the lower-cased address exactly when it is valid, and leaves the caller's string lower-cased on success and unchanged otherwise |
| Emails.LowerArroba | dominios.cpp:431-438 | lower-casing does not move the first `@` |
| Emails.NormalizadoValido | dominios.cpp:476 | the stored (lower-cased) address is valid again and lower-casing it changes nothing |
| Emails.EspecialInicialRejeitado | dominios.cpp:449-452 | an address starting with `.` or `-` is rejected |
| Emails.ExemploValido | main.cpp:98 | `admin@hotel.com` is accepted |
| Emails.ExemploInvalido | dominios.cpp:449-452 | `.admin@hotel.com`, which starts with a special character, is rejected |
| Emails.ComoEscritoConcorda | dominios.cpp:428-477 | wherever the C++ behaviour is defined it agrees with `EmailValido`; it is undefined only on an address that `EmailValido` rejects |
| Emails.EmailComoEscrito | dominios.cpp:457-472 | the C++ verdict as written, undefined (`None`) where it reads the last character of an empty part |
| Emails.LocalVazioIndefinido | dominios.cpp:457 | `@hotel.com` reaches the read before an empty local part |
| Emails.DominioVazioIndefinido | dominios.cpp:472 | `admin@` reaches the read before an empty domain |
| Containers.IndiceDe | containers.cpp:35-45 | the position of the first element with the key, and none exactly when no element has it |
| Containers.SemIndice | containers.cpp:25-33 | `list::erase`: the other elements in their order |
| Containers.Tabela.Incluir | containers.cpp:12-23 | appends exactly when no stored element has the key, otherwise changes nothing |
| Containers.Tabela.Remover | containers.cpp:25-33 | erases the first element with the key exactly when there is one |
| Containers.Tabela.Pesquisar | containers.cpp:35-45 | reports whether the key is stored and then yields the stored element, otherwise the probe |
| Containers.Tabela.Atualizar | containers.cpp:47-55 | overwrites the first element with the key, in place, exactly when there is one |
| Containers.Tabela.Listar | containers.hpp:99 | a copy of the list (only ContainerReserva declares `listar()`; the generic model offers it on all five) |
| Containers.ChaveIdentifica | containers.cpp:35-45 | with distinct keys, searching an element's key finds that element |
| Containers.IncluirPreserva | containers.cpp:12-23 | `incluir` keeps the keys distinct and the new element is found under its key |
| Containers.RemoverPreserva | containers.cpp:25-33 | `remover` keeps the keys distinct, removes the key, and leaves every other key findable exactly when it was |
| Containers.AtualizarPreserva | containers.cpp:47-55 | `atualizar` keeps the keys distinct and the new element is found where the old one was |
| Containers.PrimeiraOcorrencia | src/containers.cpp:27-35 | the first index holding the key is what the search returns |
| Servicos.VerificarSobreposicao | servicos.cpp:17-25 | as written, never reports an overlap |
| Servicos.CntrLNAutenticacao.Autenticar | servicos.cpp:32-44 | true exactly when the manager found under the email has that password |
| Servicos.CredenciaisPorGerente | servicos.cpp:32-44 | with distinct emails, authentication succeeds exactly when some stored manager has both that email and that password |
| Servicos.CntrLNPessoa.CriarGerente | servicos.cpp:50-63 | includes the manager exactly when the email is new, otherwise changes nothing; keeps emails distinct |
| Servicos.CntrLNReserva.CriarReserva | servicos.cpp:72-101 | includes the reservation exactly when its code is new; the overlap loop changes nothing; keeps codes distinct |
| Servicos.CntrLNReserva.DeletarReserva | servicos.cpp:103-106 | removes the reservation with the code exactly when there is one; afterwards the code is absent and codes stay distinct |
| Servicos.CntrLNReserva.AtualizarReserva | servicos.cpp:108-116 | replaces the stored reservation with the same code exactly when there is one; codes stay distinct |
| Servicos.CntrLNReserva.LerReserva | servicos.cpp:118-123 | the stored reservation with the code, or a default one carrying the code |
| Servicos.CntrLNReserva.ListarReservas | servicos.cpp:125-127 | every stored reservation, in order |

## Left out

- Console presentation layers, `main.cpp` and the unit-test drivers: they are I/O. Their fixtures appear only as example lemmas.
- Uninitialised fields: the implicit default constructors leave integer fields indeterminate. In the domain classes (Numero, Capacidade, Dinheiro, and `dia` and `ano` of Data) the model leaves them unconstrained. The entity defaults that the services build before a search (Entidades.GerenteComEmail, Entidades.ReservaComCodigo, Entidades.DATA_PADRAO) fix them at 0 instead, so Servicos.CntrLNReserva.LerReserva promises a value of 0 and dates of (0, "", 0) on a miss, where `Reserva r;` leaves them indeterminate. String fields start empty, as `std::string` does. Only setters that succeed give a field a meaningful value.
- Enderecos.Endereco.Validar: states which loop rejects, not which of that loop's errors it reports first.
- Nomes.Nome.Validar: the three errors of the word scan are not told apart; the contract says only that one of them is reported once the front checks pass.
- Dinheiros.Dinheiro.VarrerReais: the model names which of the three scan errors can occur but not which one the scan reports first.
- Emails.EMAIL.VerificarParte: of the two scan errors, the contract does not say which one is reported for a given part (and so neither does Emails.EMAIL.Validar).
- Reservation conflicts: `criarReserva`'s comparisons are commented out in the source. The model runs the loop and discards each result, as the code does. A date ordering on Data has no counterpart in the source.
- Locale: `isdigit`, `isalpha`, `toupper` and `tolower` are modelled for the "C" locale, ASCII only.
- The five container classes: they are one generic class instantiated with the five key functions. Keys are compared as the stored string or integer, because the C++ calls `getValor()` on Codigo and EMAIL (which offer only `getCodigo()` and `getEmail()`). Codigo, EMAIL and Ramal also have no default constructor: each has only its converting constructor, so even `Gerente g;` would not compile. As written, the sources would not compile.
- Exceptions: they become values of `Outcome`, and message text becomes the error kind.
- Integer widths: the values that reach `stoll` and `stoi` are modelled as unbounded. The accept set keeps the `long long` overflow error. The number `stoi` reads from an accepted value is at most 100000000, so it fits an `int`, however many leading zeros the digits carry (Dinheiros.ExemploZerosAEsquerda).

## Findings

| source | as written | input that shows it | evidently intended | confidence | as-written member | corrected member |
|---|---|---|---|---|---|---|
| dominios.cpp:457 and dominios.cpp:472 | reads `parte_local[length()-1]` and `dominio[length()-1]` also when the part is empty, which is undefined behaviour | `@hotel.com`, `admin@` | an empty local part or domain is rejected | not executed | Emails.EmailComoEscrito, Emails.LocalVazioIndefinido, Emails.DominioVazioIndefinido | Emails.EMAIL.Validar, Emails.ComoEscritoConcorda |

Three notes do not count as findings:

- `1234,56` is accepted with the same value as `1.234,56`, because the
  scan only checks the dots that are present (Dinheiros.ExemploSemSeparador).
- The header comment on the invalid password fixture describes `Aa1!#`,
  which fails the letter-letter rule. The fixture itself is `AA1!#`, which
  fails the character-class rule first (Senhas.ExemploInvalidoFalhaComposicao,
  Senhas.ExemploDescritoFalhaAdjacencia).
- Codigo accepts only `a-z` and `0-9`, although codes are described as
  alphanumeric, so a code with an upper-case letter is rejected
  (Codigos.MaiusculaRejeitada).
