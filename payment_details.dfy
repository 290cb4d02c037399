/**
 * The logic of the payments page (src/components/PaymentDetailsPage.js): the
 * partial-payment ledger on the edit form, the name-to-id resolution that
 * pre-fills the form from a listed payment, the pending-amount derivation of
 * the listing, the client-change reset and the submit guard.
 */
module PaymentDetails {
  import opened JsBuiltins
  import opened Api
  import Backend

  // ---------------------------------------------------------------------------
  // The form record
  // ---------------------------------------------------------------------------

  /**
   * The text of an amount field: either what the user typed, or the text
   * `x.toString()` of a number the page computed (which `parseFloat` reads
   * back as `x`).
   */
  datatype AmountField = Typed(text: string) | Shown(value: real)

  /**
   * `parseFloat(field)`; None is NaN. A computed number reads back as
   * itself, and typed text that starts with a digit is a number.
   */
  function FieldNumber(f: AmountField): (r: Option<real>)
    ensures f.Shown? ==> r == Some(f.value)
    ensures r.None? ==> f.Typed?
    ensures f.Typed? && f.text != [] && IsDigit(f.text[0]) ==> r.Some?
  {
    match f
    case Typed(t) =>
      assert t != [] && IsDigit(t[0]) ==> ParseFloat(t).Some? by {
        if t != [] && IsDigit(t[0]) {
          ParseDigitLed(t);
        }
      }
      ParseFloat(t)
    case Shown(v) => Some(v)
  }

  /** `parseFloat(field) || 0`: an unparsable field counts as 0, a computed number as itself. */
  function Amount(f: AmountField): (r: real)
    ensures FieldNumber(f).None? ==> r == 0.0
    ensures f.Shown? ==> r == f.value
  {
    FieldNumber(f).GetOr(0.0)
  }

  /** `!field`: only the empty text is falsy; the text of a computed number never is. */
  function IsBlank(f: AmountField): (b: bool)
    ensures b ==> FieldNumber(f).None? && Amount(f) == 0.0
    ensures f.Shown? ==> !b
    ensures f.Typed? && f.text != [] ==> !b
  {
    ParseEmpty();
    f == Typed("")
  }

  /**
   * `formData`. An id field holds '' (None) or the text of a listed id; it
   * is kept here as the id itself.
   */
  datatype PaymentForm = PaymentForm(
    clientId: Option<Id>,
    projectId: Option<Id>,
    totalAmount: AmountField,
    paidAmount: AmountField,
    pendingAmount: AmountField,
    paymentDate: string)

  /** The form of a new payment (`resetForm`): no ids, no total, paid and pending "0". */
  function BlankForm(today: string): (f: PaymentForm)
    ensures f.clientId.None? && f.projectId.None? && f.totalAmount == Typed("")
    ensures f.paidAmount == f.pendingAmount == Typed("0") && f.paymentDate == today
  {
    PaymentForm(None, None, Typed(""), Typed("0"), Typed("0"), today)
  }

  /** Every amount of the blank form counts as 0, and it cannot be submitted until a total is typed. */
  lemma BlankFormAmounts(today: string)
    ensures IsBlank(BlankForm(today).totalAmount)
    ensures Amount(BlankForm(today).totalAmount) == 0.0
    ensures Amount(BlankForm(today).paidAmount) == 0.0 && Amount(BlankForm(today).pendingAmount) == 0.0
  {
    var f := BlankForm(today);
    assert f.totalAmount == Typed("") && f.paidAmount == Typed("0") && f.pendingAmount == Typed("0");
    ParseZero();
    ParseEmpty();
    assert FieldNumber(Typed("")) == None;
    assert FieldNumber(Typed("0")) == Some(0.0);
  }

  // ---------------------------------------------------------------------------
  // The partial-payment ledger (handleAddPendingAmount)
  // ---------------------------------------------------------------------------

  /**
   * What pressing "add pending amount" does: the pending field holds the
   * amount just received. It is refused when it exceeds `total - paid`;
   * otherwise it is added to paid and pending becomes what is left.
   */
  datatype EntryOutcome = Accepted(form: PaymentForm) | ExceedsPending(actualPending: real)

  function ApplyPendingEntry(f: PaymentForm): (r: EntryOutcome)
    ensures r.ExceedsPending? <==> Amount(f.pendingAmount) > Amount(f.totalAmount) - Amount(f.paidAmount)
    ensures r.ExceedsPending? ==> r.actualPending == Amount(f.totalAmount) - Amount(f.paidAmount)
    ensures r.Accepted? ==> Amount(r.form.paidAmount) == Amount(f.paidAmount) + Amount(f.pendingAmount)
    ensures r.Accepted? ==> Amount(r.form.paidAmount) + Amount(r.form.pendingAmount) == Amount(f.totalAmount)
    ensures r.Accepted? ==> Amount(r.form.paidAmount) <= Amount(f.totalAmount) && Amount(r.form.pendingAmount) >= 0.0
    ensures r.Accepted? ==>
              r.form.clientId == f.clientId && r.form.projectId == f.projectId
              && r.form.totalAmount == f.totalAmount && r.form.paymentDate == f.paymentDate
  {
    var paid := Amount(f.paidAmount);
    var entered := Amount(f.pendingAmount);
    var total := Amount(f.totalAmount);
    var actualPending := total - paid;
    if entered > actualPending then
      ExceedsPending(actualPending)
    else
      var newPaid := paid + entered;
      Accepted(f.(paidAmount := Shown(newPaid), pendingAmount := Shown(total - newPaid)))
  }

  /**
   * After an accepted entry the pending field shows exactly what is left, so
   * a second press is accepted too and settles the payment: paid reaches the
   * total and pending 0.
   */
  lemma SecondEntrySettles(f: PaymentForm)
    requires ApplyPendingEntry(f).Accepted?
    ensures ApplyPendingEntry(ApplyPendingEntry(f).form).Accepted?
    ensures var g := ApplyPendingEntry(ApplyPendingEntry(f).form).form;
            Amount(g.paidAmount) == Amount(f.totalAmount) && Amount(g.pendingAmount) == 0.0
  {
    var g := ApplyPendingEntry(f).form;
    assert Amount(g.pendingAmount) == Amount(g.totalAmount) - Amount(g.paidAmount);
  }

  // ---------------------------------------------------------------------------
  // Name-to-id resolution (openModal and the effect that re-runs it)
  // ---------------------------------------------------------------------------

  /** `c.name.toLowerCase() === name.toLowerCase()`. */
  predicate NameMatches(c: Choice, name: string) {
    SameText(c.name, name)
  }

  /** Either lower-cased name contains the other. */
  predicate NameOverlaps(c: Choice, name: string) {
    Includes(Lower(c.name), Lower(name)) || Includes(Lower(name), Lower(c.name))
  }

  /** `i` is the first position of `s` whose name matches `name` exactly (up to case). */
  predicate FirstMatchAt(s: seq<Choice>, name: string, i: int) {
    0 <= i < |s| && NameMatches(s[i], name) && forall j :: 0 <= j < i ==> !NameMatches(s[j], name)
  }

  /** `i` is the first position of `s` whose name overlaps `name`. */
  predicate FirstOverlapAt(s: seq<Choice>, name: string, i: int) {
    0 <= i < |s| && NameOverlaps(s[i], name) && forall j :: 0 <= j < i ==> !NameOverlaps(s[j], name)
  }

  /**
   * The client id of a listed payment's `client_name`: the first client
   * whose name equals it up to case; None for an empty name or no match.
   */
  function ResolveClient(name: string, clients: seq<Choice>): (r: Option<Id>)
    ensures name == "" ==> r.None?
    ensures name != "" ==> (r.Some? <==> exists i :: 0 <= i < |clients| && NameMatches(clients[i], name))
    ensures r.Some? ==> exists i :: FirstMatchAt(clients, name, i) && clients[i].id == r.value
  {
    if name == "" then None
    else
      match FindIndex(clients, c => NameMatches(c, name))
      case None => None
      case Some(i) =>
        assert FirstMatchAt(clients, name, i);
        Some(clients[i].id)
  }

  /**
   * The project of a listed payment's `project_name` among `projects`, in
   * order of preference: the first exact match up to case; else the first
   * project whose name contains it or is contained in it; else the only
   * project when there is exactly one; else none. An empty name or an empty
   * list gives none.
   */
  function ResolveProject(name: string, projects: seq<Choice>): (r: Option<Choice>)
    ensures name == "" || projects == [] ==> r.None?
    ensures r.Some? ==> r.value in projects
    ensures name != "" && (exists i :: 0 <= i < |projects| && NameMatches(projects[i], name)) ==>
              exists i :: FirstMatchAt(projects, name, i) && r == Some(projects[i])
    ensures name != "" && (forall i :: 0 <= i < |projects| ==> !NameMatches(projects[i], name))
            && (exists i :: 0 <= i < |projects| && NameOverlaps(projects[i], name)) ==>
              exists i :: FirstOverlapAt(projects, name, i) && r == Some(projects[i])
    ensures name != "" && projects != []
            && (forall i :: 0 <= i < |projects| ==> !NameMatches(projects[i], name) && !NameOverlaps(projects[i], name)) ==>
              r == if |projects| == 1 then Some(projects[0]) else None
  {
    if name == "" || projects == [] then None
    else
      match FindIndex(projects, p => NameMatches(p, name))
      case Some(i) =>
        assert FirstMatchAt(projects, name, i);
        Some(projects[i])
      case None =>
        match FindIndex(projects, p => NameOverlaps(p, name))
        case Some(i) =>
          assert FirstOverlapAt(projects, name, i);
          Some(projects[i])
        case None =>
          if |projects| == 1 then Some(projects[0]) else None
  }

  /** The id a resolved project puts in the form (`projectId ? projectId.toString() : ''`). */
  function ProjectIdOf(c: Option<Choice>): (r: Option<Id>)
    ensures r.Some? <==> c.Some?
    ensures r.Some? ==> r.value == c.value.id
  {
    match c
    case None => None
    case Some(p) => Some(p.id)
  }

  /** A payment's name matches a project exactly up to case: that project wins whatever else is listed. */
  lemma ExactMatchWins(name: string, projects: seq<Choice>, i: nat)
    requires name != "" && i < |projects| && NameMatches(projects[i], name)
    requires forall j :: 0 <= j < i ==> !NameMatches(projects[j], name)
    ensures ResolveProject(name, projects) == Some(projects[i])
  {
    assert FirstMatchAt(projects, name, i);
    forall k | FirstMatchAt(projects, name, k)
      ensures k == i
    {
    }
  }

  /** An exact match is always also a containment match, so the second rule never picks over the first. */
  lemma ExactMatchOverlaps(c: Choice, name: string)
    requires NameMatches(c, name)
    ensures NameOverlaps(c, name)
  {
    assert OccursAt(Lower(c.name), Lower(name), 0);
  }

  /**
   * The ids openModal puts in the form for a listed payment: the client by
   * name; only when that succeeds, the project by name among `candidates`
   * (the project list the page holds when the dialog opens).
   */
  function ResolveLinks(p: PaymentListing, clients: seq<Choice>, candidates: seq<Choice>): (r: (Option<Id>, Option<Id>))
    ensures r.0 == ResolveClient(p.clientName, clients)
    ensures r.0.None? ==> r.1.None?
    ensures r.1.Some? ==> exists c :: c in candidates && c.id == r.1.value
    ensures r.0.Some? ==> r.1 == ProjectIdOf(ResolveProject(p.projectName, candidates))
  {
    var client := ResolveClient(p.clientName, clients);
    if client.None? then (None, None)
    else (client, ProjectIdOf(ResolveProject(p.projectName, candidates)))
  }

  /** The text before the first 'T' (`s.split('T')[0]`). */
  function DatePart(s: string): (r: string)
    ensures |r| <= |s| && r == s[..|r|]
    ensures 'T' !in r
    ensures |r| < |s| ==> s[|r|] == 'T'
  {
    if s == [] || s[0] == 'T' then [] else [s[0]] + DatePart(s[1..])
  }

  /**
   * The form openModal fills in for a listed payment: the resolved ids, the
   * amounts as numbers, pending as total less paid, and the date part of the
   * payment date (`today`, the current date's text, when it has none).
   */
  function FormForPayment(p: PaymentListing, clients: seq<Choice>, candidates: seq<Choice>, today: string): (f: PaymentForm)
    ensures (f.clientId, f.projectId) == ResolveLinks(p, clients, candidates)
    ensures Amount(f.totalAmount) == p.totalAmount && Amount(f.paidAmount) == p.paidAmount
    ensures Amount(f.paidAmount) + Amount(f.pendingAmount) == Amount(f.totalAmount)
    ensures !IsBlank(f.totalAmount)
    ensures p.paymentDate != "" ==> f.paymentDate == DatePart(p.paymentDate)
    ensures p.paymentDate != "" ==> 'T' !in f.paymentDate && f.paymentDate <= p.paymentDate
    ensures p.paymentDate == "" ==> f.paymentDate == today
  {
    var ids := ResolveLinks(p, clients, candidates);
    var date := if p.paymentDate == "" then today else DatePart(p.paymentDate);
    PaymentForm(ids.0, ids.1, Shown(p.totalAmount), Shown(p.paidAmount), Shown(p.totalAmount - p.paidAmount), date)
  }

  /** A date text without a 'T' is its own date part. */
  lemma DatePartWithoutT(s: string)
    requires 'T' !in s
    ensures DatePart(s) == s
  {
  }

  // ---------------------------------------------------------------------------
  // The listing (fetchPayments) and the submit guard (handleSubmit)
  // ---------------------------------------------------------------------------

  const NoDate: string := "No Date Available"

  /** One listed row as the page keeps it: pending recomputed, a missing date replaced. */
  function ProcessPayment(x: PaymentListing): (y: PaymentListing)
    ensures y.pendingAmount == y.totalAmount - y.paidAmount
    ensures y.id == x.id && y.totalAmount == x.totalAmount && y.paidAmount == x.paidAmount
    ensures y.clientName == x.clientName && y.projectName == x.projectName && y.projectId == x.projectId
    ensures y.paymentDate == (if x.paymentDate == "" then NoDate else x.paymentDate)
  {
    x.(pendingAmount := x.totalAmount - x.paidAmount, paymentDate := if x.paymentDate == "" then NoDate else x.paymentDate)
  }

  /** `payments.map(...)`: every row processed, in the same order. */
  function ProcessPayments(rows: seq<PaymentListing>): (r: seq<PaymentListing>)
    ensures |r| == |rows|
    ensures forall i :: 0 <= i < |rows| ==> r[i] == ProcessPayment(rows[i])
  {
    if rows == [] then [] else [ProcessPayment(rows[0])] + ProcessPayments(rows[1..])
  }

  /** Rows whose pending already is total less paid and that carry a date are left as they are. */
  lemma {:induction false} ProcessConsistentRows(rows: seq<PaymentListing>)
    requires forall i :: 0 <= i < |rows| ==> rows[i].pendingAmount == rows[i].totalAmount - rows[i].paidAmount
    requires forall i :: 0 <= i < |rows| ==> rows[i].paymentDate != ""
    ensures ProcessPayments(rows) == rows
  {
    if rows != [] {
      ProcessConsistentRows(rows[1..]);
      assert ProcessPayment(rows[0]) == rows[0];
    }
  }

  /** Processing twice is processing once. */
  lemma ProcessIdempotent(rows: seq<PaymentListing>)
    ensures ProcessPayments(ProcessPayments(rows)) == ProcessPayments(rows)
  {
    ProcessConsistentRows(ProcessPayments(rows));
  }

  /**
   * The page's re-derivation agrees with the backend's: the listing of
   * `GET /api/payments` comes through the processing unchanged.
   */
  lemma BackendListingIsProcessed(store: Backend.Store)
    ensures ProcessPayments(store.ListPayments()) == store.ListPayments()
  {
    ProcessConsistentRows(store.ListPayments());
  }

  /**
   * The date of a payment listed by `GET /api/payments` reaches the edit form
   * as it is: the page keeps the row unchanged, and the date text has no 'T'
   * for the split to cut at.
   */
  lemma ListedDateReachesForm(store: Backend.Store, i: nat, clients: seq<Choice>, candidates: seq<Choice>, today: string)
    requires i < |store.ListPayments()|
    ensures ProcessPayments(store.ListPayments())[i] == store.ListPayments()[i]
    ensures FormForPayment(store.ListPayments()[i], clients, candidates, today).paymentDate == store.ListPayments()[i].paymentDate
  {
    BackendListingIsProcessed(store);
    DatePartWithoutT(store.ListPayments()[i].paymentDate);
  }

  /** What handleSubmit sends: PUT for the payment being edited, POST for a new one. */
  datatype Submission = Submission(editing: Option<Id>, body: PaymentRequest)

  /**
   * The guard and projection of handleSubmit: refused (nothing sent) when
   * the client, the project or the total is empty; otherwise the ids, the
   * total as `parseFloat` reads it and paid as `parseFloat(paid || 0)`.
   */
  function SubmitPayment(f: PaymentForm, current: Option<PaymentListing>): (r: Option<Submission>)
    ensures r.None? <==> f.clientId.None? || f.projectId.None? || IsBlank(f.totalAmount)
    ensures r.Some? ==> r.value.body.clientId == f.clientId.value && r.value.body.projectId == f.projectId.value
    ensures r.Some? ==> r.value.body.totalAmount == FieldNumber(f.totalAmount)
    ensures r.Some? ==> r.value.body.paidAmount == (if IsBlank(f.paidAmount) then Some(0.0) else FieldNumber(f.paidAmount))
    ensures r.Some? ==> r.value.body.paymentDate == f.paymentDate
    ensures r.Some? ==> r.value.editing == (if current.Some? then Some(current.value.id) else None)
  {
    if f.clientId.None? || f.projectId.None? || IsBlank(f.totalAmount) then None
    else
      var paid := if IsBlank(f.paidAmount) then Some(0.0) else FieldNumber(f.paidAmount);
      var body := PaymentRequest(f.clientId.value, f.projectId.value, FieldNumber(f.totalAmount), paid, f.paymentDate);
      Some(Submission(if current.Some? then Some(current.value.id) else None, body))
  }

  // ---------------------------------------------------------------------------
  // The page state and its handlers
  // ---------------------------------------------------------------------------

  class PaymentPage {
    var clients: seq<Choice>
    var projects: seq<Choice>
    var currentPayment: Option<PaymentListing>
    var modalOpen: bool
    var form: PaymentForm

    constructor (today: string)
      ensures form == BlankForm(today)
      ensures clients == [] && projects == [] && currentPayment.None? && !modalOpen
    {
      clients := [];
      projects := [];
      currentPayment := None;
      modalOpen := false;
      form := BlankForm(today);
    }

    /** `fetchClients`: the client dropdown as the backend returned it. */
    method LoadClients(fetched: seq<Choice>)
      modifies this
      ensures clients == fetched
      ensures projects == old(projects) && currentPayment == old(currentPayment)
      ensures modalOpen == old(modalOpen) && form == old(form)
    {
      clients := fetched;
    }

    /**
     * `handleClientChange`: the chosen client replaces the old one and the
     * project selection is always cleared; the project list becomes the
     * chosen client's (`fetched`, [] when that fetch fails), or [] when the
     * client was cleared.
     */
    method ClientChange(value: Option<Id>, fetched: seq<Choice>)
      modifies this
      ensures form == old(form).(clientId := value, projectId := None)
      ensures projects == if value.Some? then fetched else []
      ensures clients == old(clients) && currentPayment == old(currentPayment) && modalOpen == old(modalOpen)
    {
      form := form.(clientId := value, projectId := None);
      if value.Some? {
        projects := fetched;
      } else {
        projects := [];
      }
    }

    /** `handleAddPendingAmount`: a refused entry leaves the form as it was. */
    method AddPendingAmount() returns (outcome: EntryOutcome)
      modifies this
      ensures outcome == ApplyPendingEntry(old(form))
      ensures form == if outcome.Accepted? then outcome.form else old(form)
      ensures clients == old(clients) && projects == old(projects)
      ensures currentPayment == old(currentPayment) && modalOpen == old(modalOpen)
    {
      outcome := ApplyPendingEntry(form);
      if outcome.Accepted? {
        form := outcome.form;
      }
    }

    /**
     * `openModal`. For a listed payment: remember it, fetch the resolved
     * client's projects (`fetched`) and fill the form; the project name is
     * matched against the project list the page held when the dialog was
     * opened, since the fetched list only becomes visible on the next
     * render (see SyncProjectSelection). Without a payment: a blank form.
     */
    method OpenModal(payment: Option<PaymentListing>, fetched: seq<Choice>, today: string)
      modifies this
      ensures modalOpen && currentPayment == payment && clients == old(clients)
      ensures payment.None? ==> form == BlankForm(today) && projects == old(projects)
      ensures payment.Some? ==> form == FormForPayment(payment.value, old(clients), old(projects), today)
      ensures payment.Some? ==>
                projects == if ResolveClient(payment.value.clientName, old(clients)).Some? then fetched else old(projects)
    {
      currentPayment := payment;
      if payment.Some? {
        var candidates := projects;
        if ResolveClient(payment.value.clientName, clients).Some? {
          projects := fetched;
        }
        form := FormForPayment(payment.value, clients, candidates, today);
      } else {
        form := BlankForm(today);
      }
      modalOpen := true;
    }

    /**
     * The effect that re-runs the project match once the payment, the
     * project list and the open dialog are all there: it overwrites the
     * form's project id with the match among the current list ('' when
     * nothing matches) and touches nothing else.
     */
    method SyncProjectSelection()
      modifies this
      ensures currentPayment.Some? && |projects| > 0 && modalOpen ==>
                form == old(form).(projectId := ProjectIdOf(ResolveProject(currentPayment.value.projectName, projects)))
      ensures !(currentPayment.Some? && |projects| > 0 && modalOpen) ==> form == old(form)
      ensures clients == old(clients) && projects == old(projects)
      ensures currentPayment == old(currentPayment) && modalOpen == old(modalOpen)
    {
      if currentPayment.Some? && |projects| > 0 && modalOpen {
        form := form.(projectId := ProjectIdOf(ResolveProject(currentPayment.value.projectName, projects)));
      }
    }
  }

  // ---------------------------------------------------------------------------
  // Worked examples
  // ---------------------------------------------------------------------------

  /** "Acme" finds the client listed as "ACME". */
  lemma ClientMatchIgnoresCase()
    ensures ResolveClient("Acme", [Choice(1, "ACME")]) == Some(1)
  {
    assert NameMatches(Choice(1, "ACME"), "Acme");
  }

  /** "Website" finds "Website Redesign" by containment. */
  lemma ProjectMatchByContainment()
    ensures ResolveProject("Website", [Choice(5, "Website Redesign")]) == Some(Choice(5, "Website Redesign"))
  {
    WebsiteOverlaps();
    assert !NameMatches(Choice(5, "Website Redesign"), "Website") by {
      assert |Lower("Website Redesign")| != |Lower("Website")|;
    }
  }

  lemma WebsiteOverlaps()
    ensures NameOverlaps(Choice(5, "Website Redesign"), "Website")
  {
    var name := "Website Redesign";
    assert name[..7] == "Website";
    LowerPrefix(name, 7);
    assert OccursAt(Lower(name), Lower("Website"), 0);
  }

  /** An unrelated name takes the only project, but not one of two. */
  lemma ProjectFallbackOnlyForSingleCandidate()
    ensures ResolveProject("Foo", [Choice(9, "Bar")]) == Some(Choice(9, "Bar"))
    ensures ResolveProject("Foo", [Choice(9, "Bar"), Choice(10, "Baz")]).None?
  {
    Unrelated(Choice(9, "Bar"), "Foo");
    Unrelated(Choice(10, "Baz"), "Foo");
  }

  /** Two three-letter names that differ in their first letter neither match nor contain each other. */
  lemma Unrelated(c: Choice, name: string)
    requires |c.name| == 3 && |name| == 3
    requires LowerChar(c.name[0]) != LowerChar(name[0])
    ensures !NameMatches(c, name) && !NameOverlaps(c, name)
  {
    assert Lower(c.name)[0] != Lower(name)[0];
    assert !OccursAt(Lower(c.name), Lower(name), 0);
    assert !OccursAt(Lower(name), Lower(c.name), 0);
  }
}
