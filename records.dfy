/** The records of the `estoque_doces` table as the component holds them, and the three
    status labels it writes into them. */
module Records {
  import opened Wrappers

  /** The derived shelf-life status of one batch. */
  datatype Status = Available | ExpiringSoon | Expired

  /** The text stored in a record's `status` field for each status. */
  function StatusLabel(s: Status): (text: string)
    ensures IsStatusLabel(text)
    ensures s == Available <==> text == "Disponível"
  {
    match s
    case Available => "Disponível"
    case ExpiringSoon => "Próximo do vencimento"
    case Expired => "Vencido"
  }

  predicate IsStatusLabel(text: string)
  {
    text == "Disponível" || text == "Próximo do vencimento" || text == "Vencido"
  }

  /** Distinct statuses get distinct labels, so the label determines the status. */
  lemma StatusLabelInjective(a: Status, b: Status)
    ensures StatusLabel(a) == StatusLabel(b) ==> a == b
  {
  }

  /** One loaded row. `categoria` may be missing (null in the store); `dataValidade` is the
      'YYYY-MM-DD' text of the expiry date; `status` is whatever text the row carries. */
  datatype Item = Item(
    id: int,
    nome: string,
    sabor: string,
    categoria: Option<string>,
    quantidade: int,
    preco: real,
    dataFabricacao: string,
    dataValidade: string,
    status: string,
    observacoes: string)

  /** No two rows share an identifier, as the store assigns them. */
  ghost predicate UniqueIds(rows: seq<Item>)
  {
    forall i, j :: 0 <= i < |rows| && 0 <= j < |rows| && rows[i].id == rows[j].id ==> i == j
  }
}
