/** The registration form: the draft record `novoDoce` with its nine text fields, the
    inputs generated from its keys, and the required-field check of `cadastrarDoce`. */
module Form {
  import opened Wrappers
  import opened Text

  /** `novoDoce`: every field holds the text typed into its input. */
  datatype Draft = Draft(
    nome: string,
    sabor: string,
    categoria: string,
    quantidade: string,
    preco: string,
    dataFabricacao: string,
    dataValidade: string,
    status: string,
    observacoes: string)

  /** The value the draft starts with and is reset to after a successful insert. */
  const InitialDraft: Draft := Draft("", "", "", "", "", "", "", "Disponível", "")

  /** The draft's keys. */
  datatype Key = Nome | Sabor | Categoria | Quantidade | Preco | DataFabricacao | DataValidade | StatusKey | Observacoes

  /** The property name each key has in the record. */
  function KeyName(k: Key): string
  {
    match k
    case Nome => "nome"
    case Sabor => "sabor"
    case Categoria => "categoria"
    case Quantidade => "quantidade"
    case Preco => "preco"
    case DataFabricacao => "data_fabricacao"
    case DataValidade => "data_validade"
    case StatusKey => "status"
    case Observacoes => "observacoes"
  }

  /** Distinct keys have distinct names. */
  lemma KeyNameInjective(a: Key, b: Key)
    ensures KeyName(a) == KeyName(b) ==> a == b
  {
  }

  /** The keys in declaration order, which is the order `Object.entries` lists them. */
  const DraftKeys: seq<Key> :=
    [Nome, Sabor, Categoria, Quantidade, Preco, DataFabricacao, DataValidade, StatusKey, Observacoes]

  /** `novoDoce[key]`. */
  function Get(d: Draft, k: Key): string
  {
    match k
    case Nome => d.nome
    case Sabor => d.sabor
    case Categoria => d.categoria
    case Quantidade => d.quantidade
    case Preco => d.preco
    case DataFabricacao => d.dataFabricacao
    case DataValidade => d.dataValidade
    case StatusKey => d.status
    case Observacoes => d.observacoes
  }

  /** `{ ...novoDoce, [key]: v }`: one field replaced, the others kept. */
  function Set(d: Draft, k: Key, v: string): (r: Draft)
    ensures Get(r, k) == v
    ensures forall j :: j != k ==> Get(r, j) == Get(d, j)
  {
    match k
    case Nome => d.(nome := v)
    case Sabor => d.(sabor := v)
    case Categoria => d.(categoria := v)
    case Quantidade => d.(quantidade := v)
    case Preco => d.(preco := v)
    case DataFabricacao => d.(dataFabricacao := v)
    case DataValidade => d.(dataValidade := v)
    case StatusKey => d.(status := v)
    case Observacoes => d.(observacoes := v)
  }

  /** Every key is listed, once. */
  lemma DraftKeysComplete(k: Key)
    ensures k in DraftKeys
    ensures forall i, j :: 0 <= i < j < |DraftKeys| ==> DraftKeys[i] != DraftKeys[j]
  {
  }

  /** A draft is determined by what its keys read. */
  lemma DraftByKeys(a: Draft, b: Draft)
    requires forall k :: Get(a, k) == Get(b, k)
    ensures a == b
  {
    assert Get(a, Nome) == Get(b, Nome) && Get(a, Sabor) == Get(b, Sabor);
    assert Get(a, Categoria) == Get(b, Categoria) && Get(a, Quantidade) == Get(b, Quantidade);
    assert Get(a, Preco) == Get(b, Preco) && Get(a, DataFabricacao) == Get(b, DataFabricacao);
    assert Get(a, DataValidade) == Get(b, DataValidade) && Get(a, StatusKey) == Get(b, StatusKey);
    assert Get(a, Observacoes) == Get(b, Observacoes);
  }

  /** The keys that get an input: those whose name is not 'status', in order. */
  function FormKeys(keys: seq<Key>): (r: seq<Key>)
    ensures |r| <= |keys|
  {
    if keys == [] then []
    else (if KeyName(keys[0]) == "status" then [] else [keys[0]]) + FormKeys(keys[1..])
  }

  /** A key gets an input exactly when it is a draft key other than the status. */
  lemma {:induction false} FormKeysMembers(keys: seq<Key>, k: Key)
    ensures k in FormKeys(keys) <==> k in keys && k != StatusKey
    decreases |keys|
  {
    if keys != [] {
      FormKeysMembers(keys[1..], k);
      KeyNameInjective(keys[0], StatusKey);
      assert keys == [keys[0]] + keys[1..];
    }
  }

  /** The form shows eight inputs, in declaration order, and none for the status. */
  lemma DraftFormKeys()
    ensures FormKeys(DraftKeys)
      == [Nome, Sabor, Categoria, Quantidade, Preco, DataFabricacao, DataValidade, Observacoes]
  {
  }

  /** Editing through the form never touches the status. */
  lemma FormEditKeepsStatus(d: Draft, k: Key, v: string)
    requires k in FormKeys(DraftKeys)
    ensures Set(d, k, v).status == d.status
  {
    FormKeysMembers(DraftKeys, k);
    assert Get(Set(d, k, v), StatusKey) == Get(d, StatusKey);
  }

  /** The required-field check of `cadastrarDoce`: every one of these must be non-empty. */
  predicate HasRequiredFields(d: Draft)
  {
    d.nome != "" && d.sabor != "" && d.quantidade != "" && d.preco != "" && d.dataValidade != ""
  }

  const RequiredKeys: seq<Key> := [Nome, Sabor, Quantidade, Preco, DataValidade]
  const OptionalKeys: seq<Key> := [Categoria, DataFabricacao, Observacoes]

  /** The check reads exactly the five required keys. */
  lemma RequiredByKey(d: Draft)
    ensures HasRequiredFields(d) <==> forall k :: k in RequiredKeys ==> Get(d, k) != ""
  {
    assert Nome in RequiredKeys && Sabor in RequiredKeys && Quantidade in RequiredKeys;
    assert Preco in RequiredKeys && DataValidade in RequiredKeys;
  }

  /** Category, manufacture date and notes may be anything, empty included. */
  lemma OptionalFieldsNotRequired(d: Draft, k: Key, v: string)
    requires k in OptionalKeys
    ensures HasRequiredFields(Set(d, k, v)) == HasRequiredFields(d)
  {
    RequiredByKey(d);
    RequiredByKey(Set(d, k, v));
  }

  /** Emptying any required field makes the check fail. */
  lemma ClearingRequiredFails(d: Draft, k: Key)
    requires k in RequiredKeys
    ensures !HasRequiredFields(Set(d, k, ""))
  {
    RequiredByKey(Set(d, k, ""));
  }

  /** The initial draft is blank apart from its status, so it cannot be registered as is. */
  lemma InitialDraftBlank()
    ensures forall k :: k != StatusKey ==> Get(InitialDraft, k) == ""
    ensures InitialDraft.status == "Disponível"
    ensures !HasRequiredFields(InitialDraft)
  {
  }

  /** `key.replace('_', ' ')`: the caption shown beside an input and in the details dialog. */
  function FieldLabel(key: string): (text: string)
    ensures |text| == |key|
  {
    ReplaceFirst(key, '_', ' ')
  }

  /** A key without underscore is its own caption; otherwise the first underscore is a space
      in the caption and everything else is kept. */
  lemma FieldLabelSpec(key: string)
    ensures '_' !in key ==> FieldLabel(key) == key
    ensures '_' in key ==> FieldLabel(key)[FirstIndex(key, '_')] == ' '
    ensures '_' in key ==> forall i :: 0 <= i < |key| && i != FirstIndex(key, '_') ==> FieldLabel(key)[i] == key[i]
  {
    ReplaceFirstSpec(key, '_', ' ');
  }

  /** Only the first underscore becomes a space; any later one stays in the caption. */
  lemma FieldLabelOnlyFirst(key: string)
    requires '_' in key
    ensures multiset(FieldLabel(key))['_'] == multiset(key)['_'] - 1
  {
    ReplaceFirstCount(key, '_', ' ');
  }

  /** A 'data_' key is captioned 'data ' followed by the rest of the key unchanged. */
  lemma DateKeyLabel(rest: string)
    ensures FieldLabel("data_" + rest) == "data " + rest
  {
    assert "data_" + rest == "data" + ['_'] + rest;
    ReplaceFirstAt("data", '_', ' ', rest);
    assert "data" + [' '] + rest == "data " + rest;
  }

  /** The caption of the manufacture-date key: its underscore becomes a space. */
  lemma FabricacaoLabel()
    ensures FieldLabel(KeyName(DataFabricacao)) == "data fabricacao"
  {
    DateKeyLabel("fabricacao");
    assert "data_" + "fabricacao" == "data_fabricacao";
    assert "data " + "fabricacao" == "data fabricacao";
  }

  /** The caption of the expiry-date key: its underscore becomes a space. */
  lemma ValidadeLabel()
    ensures FieldLabel(KeyName(DataValidade)) == "data validade"
  {
    DateKeyLabel("validade");
    assert "data_" + "validade" == "data_validade";
    assert "data " + "validade" == "data validade";
  }

  /** Every draft key's caption: the two date keys have their underscore turned into a
      space, the other keys have none and are shown as they are. */
  lemma DraftLabels(k: Key)
    ensures FieldLabel(KeyName(k)) == match k
      case DataFabricacao => "data fabricacao"
      case DataValidade => "data validade"
      case _ => KeyName(k)
  {
    match k
    case DataFabricacao => FabricacaoLabel();
    case DataValidade => ValidadeLabel();
    case Nome => PlainKeyLabel("nome");
    case Sabor => PlainKeyLabel("sabor");
    case Categoria => PlainKeyLabel("categoria");
    case Quantidade => PlainKeyLabel("quantidade");
    case Preco => PlainKeyLabel("preco");
    case StatusKey => PlainKeyLabel("status");
    case Observacoes => PlainKeyLabel("observacoes");
  }

  /** A key without underscore is shown as it is. */
  lemma PlainKeyLabel(name: string)
    requires '_' !in name
    ensures FieldLabel(name) == name
  {
    FieldLabelSpec(name);
  }

  datatype InputKind = NumberInput | DateInput | TextInput

  /** The `type`, `step` and `min` of the input generated for a key. */
  datatype InputAttrs = InputAttrs(kind: InputKind, step: string, min: Option<string>)

  function InputFor(key: string): InputAttrs
  {
    var kind :=
      if key == "quantidade" then NumberInput
      else if key == "preco" then NumberInput
      else if Contains(key, "data") then DateInput
      else TextInput;
    InputAttrs(kind, if key == "preco" then "0.01" else "1",
               if key == "quantidade" || key == "preco" then Some("0") else None)
  }

  /** The input each key gets: number inputs for quantity (step 1) and price (step 0.01),
      both with minimum 0; date inputs for the two keys containing 'data'; text otherwise. */
  lemma InputTable(k: Key)
    ensures InputFor(KeyName(k)) == match k
      case Quantidade => InputAttrs(NumberInput, "1", Some("0"))
      case Preco => InputAttrs(NumberInput, "0.01", Some("0"))
      case DataFabricacao => InputAttrs(DateInput, "1", None)
      case DataValidade => InputAttrs(DateInput, "1", None)
      case _ => InputAttrs(TextInput, "1", None)
  {
    match k
    case Nome => TextKeyInput("nome");
    case Sabor => TextKeyInput("sabor");
    case Categoria => TextKeyInput("categoria");
    case Quantidade =>
    case Preco =>
    case DataFabricacao => DateKeyInput("data_fabricacao");
    case DataValidade => DateKeyInput("data_validade");
    case StatusKey => TextKeyInput("status");
    case Observacoes => TextKeyInput("observacoes");
  }

  /** A key that is neither numeric nor contains a 'd' gets a plain text input. */
  lemma TextKeyInput(name: string)
    requires name != "quantidade" && name != "preco" && 'd' !in name
    ensures InputFor(name) == InputAttrs(TextInput, "1", None)
  {
    MissingFirstChar(name, "data");
  }

  /** A non-numeric key starting with 'data' gets a date input. */
  lemma DateKeyInput(name: string)
    requires name != "quantidade" && name != "preco" && |name| >= 4 && name[..4] == "data"
    ensures InputFor(name) == InputAttrs(DateInput, "1", None)
  {
    assert OccursAt(name, "data", 0);
    ContainsAt(name, "data", 0);
  }

  /** The numeric inputs are exactly quantity and price and exactly they have minimum 0; the
      date inputs are exactly the two dates; only price accepts cents. */
  lemma FormInputs(k: Key)
    ensures InputFor(KeyName(k)).kind == NumberInput <==> k == Quantidade || k == Preco
    ensures InputFor(KeyName(k)).kind == DateInput <==> k == DataFabricacao || k == DataValidade
    ensures InputFor(KeyName(k)).min == Some("0") <==> InputFor(KeyName(k)).kind == NumberInput
    ensures InputFor(KeyName(k)).step == "0.01" <==> k == Preco
  {
    InputTable(k);
  }
}
