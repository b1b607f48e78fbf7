/** The `EstoqueDoces` screen's state and the handlers that change it. The store is not
    modelled: each call that would reach it takes what it returned as a parameter. */
module Inventory {
  import opened Wrappers
  import opened Records
  import opened Expiry
  import opened Filters
  import opened Form

  /** What the `select` on `estoque_doces` returned. */
  datatype LoadResult = Loaded(rows: seq<Item>) | LoadFailed(message: string)

  /** What the `insert` into `estoque_doces` returned. */
  datatype InsertResult = Inserted | InsertFailed(message: string)

  /** A row's details dialog is open when the dialog flag is set and that row is the selected one. */
  predicate DialogOpen(isOpen: bool, selected: Option<Item>, d: Item)
  {
    isOpen && selected.Some? && selected.value.id == d.id
  }

  /** With unique identifiers at most one row has its dialog open. */
  lemma AtMostOneDialogOpen(rows: seq<Item>, isOpen: bool, selected: Option<Item>, i: int, j: int)
    requires UniqueIds(rows) && 0 <= i < |rows| && 0 <= j < |rows|
    requires DialogOpen(isOpen, selected, rows[i]) && DialogOpen(isOpen, selected, rows[j])
    ensures i == j
  {
  }

  /** The dialog opens on the row that was selected and on no row while the flag is off. */
  lemma DialogFollowsSelection(isOpen: bool, selected: Option<Item>, d: Item)
    ensures DialogOpen(true, Some(d), d)
    ensures !isOpen ==> !DialogOpen(isOpen, selected, d)
    ensures selected.None? ==> !DialogOpen(isOpen, selected, d)
  {
  }

  class EstoqueDoces {
    var doces: seq<Item>
    var novoDoce: Draft
    var filtros: Criteria
    var doceSelecionado: Option<Item>
    var isDialogOpen: bool

    /** The draft always carries the status 'Disponível' (no input edits it), and every loaded
        row carries one of the three derived labels. */
    ghost predicate Valid()
      reads this
    {
      && novoDoce.status == "Disponível"
      && forall i :: 0 <= i < |doces| ==> IsStatusLabel(doces[i].status)
    }

    /** The `useState` initial values. */
    constructor ()
      ensures Valid()
      ensures doces == [] && novoDoce == InitialDraft && filtros == NoCriteria
      ensures doceSelecionado == None && !isDialogOpen
    {
      doces := [];
      novoDoce := InitialDraft;
      filtros := NoCriteria;
      doceSelecionado := None;
      isDialogOpen := false;
    }

    /** `fetchDoces`: on a successful load the rows are replaced by the loaded rows with their
        statuses recomputed at `now`; on a failed load nothing changes. */
    method FetchDoces(result: LoadResult, now: int, midnight: string -> Option<int>)
      requires Valid()
      modifies this
      ensures Valid()
      ensures result.Loaded? ==> doces == Annotate(result.rows, now, midnight)
      ensures result.LoadFailed? ==> doces == old(doces)
      ensures novoDoce == old(novoDoce) && filtros == old(filtros)
      ensures doceSelecionado == old(doceSelecionado) && isDialogOpen == old(isDialogOpen)
    {
      match result
      case LoadFailed(_) =>
      case Loaded(rows) =>
        AnnotateLabels(rows, now, midnight);
        doces := Annotate(rows, now, midnight);
    }

    /** `cadastrarDoce`. `sent` is the record handed to the store, None when the required-field
        check stopped the handler before any insert. A successful insert resets the draft and
        reloads the list with `reload`; a failed one keeps both the draft and the list. */
    method CadastrarDoce(insert: InsertResult, reload: LoadResult, now: int, midnight: string -> Option<int>)
      returns (sent: Option<Draft>)
      requires Valid()
      modifies this
      ensures Valid()
      ensures sent.Some? <==> HasRequiredFields(old(novoDoce))
      ensures sent.Some? ==> sent.value == old(novoDoce) && sent.value.status == "Disponível"
      ensures novoDoce == if sent.Some? && insert.Inserted? then InitialDraft else old(novoDoce)
      ensures doces == if sent.Some? && insert.Inserted? && reload.Loaded?
                       then Annotate(reload.rows, now, midnight) else old(doces)
      ensures filtros == old(filtros)
      ensures doceSelecionado == old(doceSelecionado) && isDialogOpen == old(isDialogOpen)
    {
      if !HasRequiredFields(novoDoce) {
        sent := None;
        return;
      }
      sent := Some(novoDoce);
      match insert
      case InsertFailed(_) =>
      case Inserted =>
        novoDoce := InitialDraft;
        FetchDoces(reload, now, midnight);
    }

    /** The `onChange` of a form input: the field under key `k` takes the typed text. */
    method EditDraft(k: Key, v: string)
      requires Valid() && k != StatusKey
      modifies this
      ensures Valid()
      ensures novoDoce == Set(old(novoDoce), k, v)
      ensures doces == old(doces) && filtros == old(filtros)
      ensures doceSelecionado == old(doceSelecionado) && isDialogOpen == old(isDialogOpen)
    {
      novoDoce := Set(novoDoce, k, v);
    }

    /** The flavour filter box's `onChange`. */
    method SetSaborFilter(v: string)
      requires Valid()
      modifies this
      ensures Valid()
      ensures filtros == old(filtros).(sabor := v)
      ensures doces == old(doces) && novoDoce == old(novoDoce)
      ensures doceSelecionado == old(doceSelecionado) && isDialogOpen == old(isDialogOpen)
    {
      filtros := filtros.(sabor := v);
    }

    /** The category filter box's `onChange`. */
    method SetCategoriaFilter(v: string)
      requires Valid()
      modifies this
      ensures Valid()
      ensures filtros == old(filtros).(categoria := v)
      ensures doces == old(doces) && novoDoce == old(novoDoce)
      ensures doceSelecionado == old(doceSelecionado) && isDialogOpen == old(isDialogOpen)
    {
      filtros := filtros.(categoria := v);
    }

    /** The maximum-price box's `onChange`, with the text already read by `parseFloat`. */
    method SetPrecoMaxFilter(p: MaxPrice)
      requires Valid()
      modifies this
      ensures Valid()
      ensures filtros == old(filtros).(precoMax := p)
      ensures doces == old(doces) && novoDoce == old(novoDoce)
      ensures doceSelecionado == old(doceSelecionado) && isDialogOpen == old(isDialogOpen)
    {
      filtros := filtros.(precoMax := p);
    }

    /** The 'Detalhes' button: select the row and open the dialog, which is then open on
        exactly the rows sharing its identifier. */
    method OpenDetails(d: Item)
      requires Valid()
      modifies this
      ensures Valid()
      ensures doceSelecionado == Some(d) && isDialogOpen
      ensures forall e :: DialogOpen(isDialogOpen, doceSelecionado, e) <==> e.id == d.id
      ensures doces == old(doces) && novoDoce == old(novoDoce) && filtros == old(filtros)
    {
      doceSelecionado := Some(d);
      isDialogOpen := true;
    }

    /** The dialog's `onOpenChange`: only the flag changes, the selection is kept. */
    method SetDialogOpen(open: bool)
      requires Valid()
      modifies this
      ensures Valid()
      ensures isDialogOpen == open && doceSelecionado == old(doceSelecionado)
      ensures doces == old(doces) && novoDoce == old(novoDoce) && filtros == old(filtros)
    {
      isDialogOpen := open;
    }
  }

  /** Filling every required field but the quantity and pressing 'Adicionar Doce' sends
      nothing and keeps the typed draft. */
  method MissingQuantityScenario(insert: InsertResult, reload: LoadResult, now: int, midnight: string -> Option<int>)
    returns (sent: Option<Draft>, kept: Draft)
    ensures sent == None
    ensures kept == InitialDraft.(nome := "Bolo", sabor := "Morango", preco := "10.50", dataValidade := "2025-01-31")
  {
    var screen := new EstoqueDoces();
    screen.EditDraft(Nome, "Bolo");
    screen.EditDraft(Sabor, "Morango");
    screen.EditDraft(Preco, "10.50");
    screen.EditDraft(DataValidade, "2025-01-31");
    ghost var filled := InitialDraft.(nome := "Bolo", sabor := "Morango", preco := "10.50", dataValidade := "2025-01-31");
    assert screen.novoDoce == filled;
    assert !HasRequiredFields(filled);
    sent := screen.CadastrarDoce(insert, reload, now, midnight);
    kept := screen.novoDoce;
  }

  /** Once the quantity is filled in too, the draft is sent as typed; a successful insert
      clears the form and a failed one leaves it as typed. */
  method CompleteRegistrationScenario(insert: InsertResult, reload: LoadResult, now: int, midnight: string -> Option<int>)
    returns (sent: Option<Draft>, kept: Draft)
    ensures sent == Some(InitialDraft.(nome := "Bolo", sabor := "Morango", quantidade := "3", preco := "10.50", dataValidade := "2025-01-31"))
    ensures kept == if insert.Inserted? then InitialDraft else sent.value
  {
    var screen := new EstoqueDoces();
    screen.EditDraft(Nome, "Bolo");
    screen.EditDraft(Sabor, "Morango");
    screen.EditDraft(Quantidade, "3");
    screen.EditDraft(Preco, "10.50");
    screen.EditDraft(DataValidade, "2025-01-31");
    ghost var filled := InitialDraft.(nome := "Bolo", sabor := "Morango", quantidade := "3", preco := "10.50", dataValidade := "2025-01-31");
    assert screen.novoDoce == filled;
    assert HasRequiredFields(filled);
    sent := screen.CadastrarDoce(insert, reload, now, midnight);
    kept := screen.novoDoce;
  }
}
