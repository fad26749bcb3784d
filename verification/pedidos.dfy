/** The order screen: an order names a client, a number, a delivery date, a
    payment date, a status, a paid flag and lines of (product, quantity).
    Saving first refuses an order without client, delivery date or line;
    the further checks that follow write into an error map the code never
    declares, so any of them failing aborts the save with an exception. */
module Pedidos {
  import opened Wrappers
  import opened JsString
  import opened JsValue
  import opened Listing
  import opened LineItems
  import opened Forms

  /** An order line; a line loaded from a stored order also carries its
      stored id. */
  datatype Line = Line(idProducto: Value, cantidad: Value, idDetalle: Option<int>)

  /** The order being created or edited. Dates are the text of date inputs. */
  datatype Form = Form(idCliente: Value, numero: Value, fechaEntrega: string, fechaPago: string,
                       estado: string, pagado: bool, lines: seq<Line>)

  /** An order as fetched: the dates are date-time texts, the payment date
      and the lines may be missing. */
  datatype Pedido = Pedido(id: int, idCliente: Value, numero: Value, fechaEntrega: string,
                           fechaPago: Option<string>, estado: string, pagado: bool,
                           lines: Option<seq<Line>>, clienteNombre: string)

  /** A submitted line: the product and the quantity only. */
  datatype PayloadLine = PayloadLine(idProducto: Value, cantidad: Value)

  /** What is submitted. The source converts ids and quantities with
      `parseInt` and the dates with `toISOString`; here they travel
      unconverted. A payment date is absent (`null`) unless the order is paid
      and has one. */
  datatype Payload = Payload(idCliente: Value, numero: Value, fechaEntrega: string,
                             fechaPago: Option<string>, estado: string, pagado: bool,
                             lines: seq<PayloadLine>)

  const PedidosPerPage: nat := 5

  /** `handleCreate`: status "pendiente", unpaid, everything else empty. */
  const NewForm := Form(Str(""), Str(""), "", "", "pendiente", false, [])

  const EmptyLine := Line(Str(""), Str(""), None)

  // ---- Editing ----

  /** `handleEdit`: the delivery date keeps the part before 'T', a payment
      date likewise or "" when missing, and missing lines become none. */
  function Edit(p: Pedido): (r: Form)
    ensures r.idCliente == p.idCliente && r.numero == p.numero && r.estado == p.estado && r.pagado == p.pagado
    ensures r.fechaEntrega <= p.fechaEntrega && 'T' !in r.fechaEntrega
    ensures |r.fechaEntrega| < |p.fechaEntrega| ==> p.fechaEntrega[|r.fechaEntrega|] == 'T'
    ensures p.fechaPago.None? ==> r.fechaPago == ""
    ensures p.fechaPago.Some? ==> r.fechaPago <= p.fechaPago.value && 'T' !in r.fechaPago
    ensures r.lines == p.lines.GetOr([])
  {
    Form(p.idCliente, p.numero, BeforeT(p.fechaEntrega), DatePart(p.fechaPago), p.estado, p.pagado,
         p.lines.GetOr([]))
  }

  /** Editing an order whose dates are already plain days keeps them. */
  lemma EditKeepsPlainDates(p: Pedido)
    requires 'T' !in p.fechaEntrega && p.fechaPago.Some? && 'T' !in p.fechaPago.value
    ensures Edit(p).fechaEntrega == p.fechaEntrega && Edit(p).fechaPago == p.fechaPago.value
  {
    BeforeTNoT(p.fechaEntrega);
  }

  /** `handlePagadoChange`: checking "paid" keeps the payment date,
      unchecking it clears the date. */
  function SetPagado(form: Form, checked: bool): (r: Form)
    ensures r.pagado == checked
    ensures checked ==> r.fechaPago == form.fechaPago
    ensures !checked ==> r.fechaPago == ""
    ensures r.(pagado := form.pagado, fechaPago := form.fechaPago) == form
  {
    form.(pagado := checked, fechaPago := if checked then form.fechaPago else "")
  }

  /** Unchecking and checking again loses the payment date; checking twice
      changes nothing more than checking once. */
  lemma PagadoToggleLosesDate(form: Form)
    ensures SetPagado(SetPagado(form, false), true).fechaPago == ""
    ensures SetPagado(SetPagado(form, true), true) == SetPagado(form, true)
  {
  }

  // ---- Lines ----

  /** `handleAddDetalle`. */
  function AddLine(form: Form): (r: Form)
    ensures |r.lines| == |form.lines| + 1 && r.lines[..|form.lines|] == form.lines
    ensures r.lines[|form.lines|] == EmptyLine
    ensures r.(lines := form.lines) == form
  {
    form.(lines := Append(form.lines, EmptyLine))
  }

  /** `handleRemoveDetalle(index)`: `splice(index, 1)`. */
  function RemoveLine(form: Form, index: int): (r: Form)
    ensures r.(lines := form.lines) == form
    ensures 0 <= index < |form.lines| ==> r.lines == form.lines[..index] + form.lines[index + 1..]
    ensures index >= |form.lines| ==> r == form
  {
    form.(lines := RemoveAt(form.lines, index))
  }

  lemma RemoveAddedLine(form: Form)
    ensures RemoveLine(AddLine(form), |form.lines|) == form
  {
    RemoveUndoesAppend(form.lines, EmptyLine);
  }

  datatype LineField = IdProducto | Cantidad

  /** `handleDetalleChange(index, name, value)`. */
  function EditLine(form: Form, index: int, field: LineField, value: Value): (r: Form)
    requires 0 <= index < |form.lines|
    ensures r.(lines := form.lines) == form && |r.lines| == |form.lines|
    ensures forall j :: 0 <= j < |form.lines| && j != index ==> r.lines[j] == form.lines[j]
    ensures field == IdProducto ==> r.lines[index] == form.lines[index].(idProducto := value)
    ensures field == Cantidad ==> r.lines[index] == form.lines[index].(cantidad := value)
  {
    var edit := (d: Line) =>
      match field
      case IdProducto => d.(idProducto := value)
      case Cantidad => d.(cantidad := value);
    form.(lines := Update(form.lines, index, edit))
  }

  // ---- Saving ----

  /** The first test of `handleSave`: client, delivery date and a line. */
  predicate PassesGate(form: Form) {
    Truthy(form.idCliente) && form.fechaEntrega != "" && |form.lines| != 0
  }

  predicate LineFilled(d: Line) {
    Truthy(d.idProducto) && Truthy(d.cantidad)
  }

  /** Some assignment into the undeclared `newErrors` runs: one of the
      field tests or a line test fails. */
  predicate ReachesUndeclaredMap(form: Form) {
    !Truthy(form.idCliente) || !Truthy(form.numero) || form.fechaEntrega == "" || form.estado == ""
    || exists i :: 0 <= i < |form.lines| && !LineFilled(form.lines[i])
  }

  function PayloadOf(form: Form): (p: Payload)
    ensures p.idCliente == form.idCliente && p.numero == form.numero && p.fechaEntrega == form.fechaEntrega
    ensures p.estado == form.estado && p.pagado == form.pagado
    ensures p.fechaPago.Some? <==> form.pagado && form.fechaPago != ""
    ensures p.fechaPago.Some? ==> p.fechaPago.value == form.fechaPago
    ensures |p.lines| == |form.lines|
    ensures forall i :: 0 <= i < |form.lines| ==>
              p.lines[i] == PayloadLine(form.lines[i].idProducto, form.lines[i].cantidad)
  {
    Payload(form.idCliente, form.numero, form.fechaEntrega,
            if form.pagado && form.fechaPago != "" then Some(form.fechaPago) else None,
            form.estado, form.pagado,
            seq(|form.lines|, i requires 0 <= i < |form.lines| =>
                  PayloadLine(form.lines[i].idProducto, form.lines[i].cantidad)))
  }

  datatype SaveOutcome =
    | Incomplete            // the first test failed: a message, nothing else
    | Aborted               // a `ReferenceError` on `newErrors` ends the handler
    | Invalid(errors: Errors)
    | Submitted(payload: Payload)

  /** `handleSave` as written. */
  function SaveAsWritten(form: Form): (r: SaveOutcome)
    ensures r.Incomplete? <==> !PassesGate(form)
    ensures r.Aborted? <==> PassesGate(form) && ReachesUndeclaredMap(form)
    ensures !r.Invalid?
    ensures r.Submitted? ==> r.payload == PayloadOf(form)
  {
    if !PassesGate(form) then Incomplete
    else if ReachesUndeclaredMap(form) then Aborted
    else Submitted(PayloadOf(form))
  }

  /** An order with client, delivery date and a complete line, but no
      number, aborts the save with an exception instead of showing "El
      número de pedido es obligatorio". */
  lemma MissingNumberAborts()
    ensures SaveAsWritten(Form(Str("3"), Str(""), "2024-05-01", "", "pendiente", false,
                               [Line(Str("2"), Str("1"), None)])) == Aborted
  {
  }

  // ---- The checks as evidently intended: errors collected into a map ----

  function FieldChecks(cliente: Option<string>, numero: Option<string>, fecha: Option<string>,
                       estado: Option<string>): seq<FieldCheck> {
    [FieldCheck("id_cliente", cliente), FieldCheck("numero_pedido", numero),
     FieldCheck("fecha_entrega", fecha), FieldCheck("estado", estado)]
  }

  lemma FieldChecksWellFormed(cliente: Option<string>, numero: Option<string>, fecha: Option<string>,
                              estado: Option<string>)
    ensures WellFormedChecks(FieldChecks(cliente, numero, fecha, estado))
  {
    assert NoDigit("id_cliente") && NoDigit("numero_pedido") && NoDigit("fecha_entrega") && NoDigit("estado");
  }

  function ProductoCheck(d: Line): Option<string> {
    if !Truthy(d.idProducto) then Some("El producto es obligatorio") else None
  }

  function CantidadCheck(d: Line): Option<string> {
    if !Truthy(d.cantidad) then Some("La cantidad es obligatoria") else None
  }

  const RowRules: seq<RowRule<Line>> := [RowRule("producto_", ProductoCheck), RowRule("cantidad_", CantidadCheck)]

  lemma RulesWellFormed()
    ensures WellFormedRules(RowRules)
  {
    assert NoDigit("producto_") && NoDigit("cantidad_");
  }

  lemma RowRulesMeaning(d: Line)
    ensures RowPasses(RowRules, d) <==> LineFilled(d)
  {
    assert RowRules[0].check(d) == ProductoCheck(d);
    assert RowRules[1].check(d) == CantidadCheck(d);
    if LineFilled(d) {
      forall a | 0 <= a < 2 ensures RowRules[a].check(d).None? {
        if a == 0 {} else {}
      }
    }
  }

  /** Every header check passes exactly when the four outcomes are None. */
  lemma FieldChecksPass(cliente: Option<string>, numero: Option<string>, fecha: Option<string>,
                        estado: Option<string>)
    ensures var checks := FieldChecks(cliente, numero, fecha, estado);
            (forall a :: 0 <= a < |checks| ==> checks[a].error.None?) <==>
              cliente.None? && numero.None? && fecha.None? && estado.None?
  {
    var checks := FieldChecks(cliente, numero, fecha, estado);
    assert checks[0].error == cliente && checks[1].error == numero;
    assert checks[2].error == fecha && checks[3].error == estado;
    if cliente.None? && numero.None? && fecha.None? && estado.None? {
      forall a | 0 <= a < |checks| ensures checks[a].error.None? {
        if a == 0 {} else if a == 1 {} else if a == 2 {} else {}
      }
    }
  }

  /** Every line passes the line tests exactly when every line is filled. */
  lemma LinesPass(lines: seq<Line>)
    ensures AllRowsPass(RowRules, lines) <==> forall i :: 0 <= i < |lines| ==> LineFilled(lines[i])
  {
    forall i | 0 <= i < |lines| ensures RowPasses(RowRules, lines[i]) <==> LineFilled(lines[i]) {
      RowRulesMeaning(lines[i]);
    }
  }

  /** The shared validator on the order's checks and line tests. */
  function RunValidator(cliente: Option<string>, numero: Option<string>, fecha: Option<string>,
                        estado: Option<string>, lines: seq<Line>): Errors {
    FieldChecksWellFormed(cliente, numero, fecha, estado);
    RulesWellFormed();
    Validator(FieldChecks(cliente, numero, fecha, estado), lines, RowRules)
  }

  /** The error object for given header outcomes and lines: a key per
      failing header field and per failing line test. */
  function Collect(cliente: Option<string>, numero: Option<string>, fecha: Option<string>,
                   estado: Option<string>, lines: seq<Line>): (r: Errors)
    ensures "id_cliente" in r <==> cliente.Some?
    ensures "numero_pedido" in r <==> numero.Some?
    ensures "fecha_entrega" in r <==> fecha.Some?
    ensures "estado" in r <==> estado.Some?
    ensures r == map[] <==>
              cliente.None? && numero.None? && fecha.None? && estado.None?
              && forall i :: 0 <= i < |lines| ==> LineFilled(lines[i])
  {
    var checks := FieldChecks(cliente, numero, fecha, estado);
    FieldChecksWellFormed(cliente, numero, fecha, estado);
    RulesWellFormed();
    var r := RunValidator(cliente, numero, fecha, estado, lines);
    assert checks[0].key == "id_cliente" && checks[1].key == "numero_pedido"
           && checks[2].key == "fecha_entrega" && checks[3].key == "estado";
    assert checks[0].error == cliente && checks[1].error == numero;
    assert checks[2].error == fecha && checks[3].error == estado;
    assert r == map[] <==>
             cliente.None? && numero.None? && fecha.None? && estado.None?
             && forall i :: 0 <= i < |lines| ==> LineFilled(lines[i]) by {
      FieldChecksPass(cliente, numero, fecha, estado);
      LinesPass(lines);
    }
    r
  }

  /** The error map the checks after the first test are meant to build: it
      is empty exactly when no assignment into `newErrors` would run, and
      names each failing field. */
  function Validate(form: Form): (r: Errors)
    ensures "id_cliente" in r <==> !Truthy(form.idCliente)
    ensures "numero_pedido" in r <==> !Truthy(form.numero)
    ensures "fecha_entrega" in r <==> form.fechaEntrega == ""
    ensures "estado" in r <==> form.estado == ""
    ensures r == map[] <==> !ReachesUndeclaredMap(form)
  {
    Collect(Required(!Truthy(form.idCliente), "El cliente es obligatorio "),
            Required(!Truthy(form.numero), "El número de pedido es obligatorio"),
            Required(form.fechaEntrega == "", "La fecha de entrega es obligatoria"),
            Required(form.estado == "", "El estado es obligatorio"),
            form.lines)
  }

  /** Line `i`'s missing product or quantity is reported under
      "producto_i" and "cantidad_i". */
  lemma LineErrors(form: Form, i: int)
    requires 0 <= i < |form.lines|
    ensures RowKey("producto_", i) in Validate(form) <==> !Truthy(form.lines[i].idProducto)
    ensures RowKey("cantidad_", i) in Validate(form) <==> !Truthy(form.lines[i].cantidad)
  {
    var c, n := Required(!Truthy(form.idCliente), "El cliente es obligatorio "),
                Required(!Truthy(form.numero), "El número de pedido es obligatorio");
    var f, e := Required(form.fechaEntrega == "", "La fecha de entrega es obligatoria"),
                Required(form.estado == "", "El estado es obligatorio");
    var r := RunValidator(c, n, f, e, form.lines);
    assert Validate(form) == Collect(c, n, f, e, form.lines) == r;
    FieldChecksWellFormed(c, n, f, e);
    RulesWellFormed();
    assert RowKey(RowRules[0].prefix, i) in r <==> ProductoCheck(form.lines[i]).Some?;
    assert RowKey(RowRules[1].prefix, i) in r <==> CantidadCheck(form.lines[i]).Some?;
  }

  /** The save with the error map declared: after the first test, the
      errors are shown and nothing is submitted, or the order is. */
  function Save(form: Form): (r: SaveOutcome)
    ensures r.Incomplete? <==> !PassesGate(form)
    ensures !r.Aborted?
    ensures r.Invalid? <==> PassesGate(form) && Validate(form) != map[]
    ensures r.Invalid? ==> r.errors == Validate(form)
    ensures r.Submitted? ==> r.payload == PayloadOf(form)
  {
    if !PassesGate(form) then Incomplete
    else
      var errors := Validate(form);
      if errors != map[] then Invalid(errors) else Submitted(PayloadOf(form))
  }

  /** Declaring the map changes no submission: exactly the orders the
      written code submits are submitted, with the same payload; where the
      written code aborts, the intended one reports the errors instead. */
  lemma SaveAgreesWhereWrittenSubmits(form: Form)
    ensures SaveAsWritten(form).Submitted? <==> Save(form).Submitted?
    ensures SaveAsWritten(form).Submitted? ==> SaveAsWritten(form) == Save(form)
    ensures SaveAsWritten(form).Aborted? <==> Save(form).Invalid?
    ensures SaveAsWritten(form).Incomplete? <==> Save(form).Incomplete?
  {
  }

  /** The missing number that aborts the written save is reported by the
      intended one. */
  lemma MissingNumberReported()
    ensures var form := Form(Str("3"), Str(""), "2024-05-01", "", "pendiente", false,
                             [Line(Str("2"), Str("1"), None)]);
            Save(form).Invalid? && "numero_pedido" in Save(form).errors
  {
  }

  /** A submitted order has a client, number, delivery date, status and at
      least one line, every line with product and quantity; it carries a
      payment date only when it is paid. */
  lemma SubmittedOrderComplete(form: Form, i: int)
    requires Save(form).Submitted? && 0 <= i < |form.lines|
    ensures Truthy(form.numero) && form.estado != "" && form.lines != []
    ensures LineFilled(form.lines[i])
    ensures !form.pagado ==> Save(form).payload.fechaPago.None?
  {
  }

  // ---- Units sold on a day ----

  /** A paid order as fetched for the count: the calendar day its delivery
      date falls on, and its line quantities (numbers). */
  datatype PaidOrder = PaidOrder(day: int, cantidades: seq<int>)

  predicate NonNegative(orders: seq<PaidOrder>) {
    forall i, k :: 0 <= i < |orders| && 0 <= k < |orders[i].cantidades| ==> orders[i].cantidades[k] >= 0
  }

  function Sum(xs: seq<int>): int {
    if xs == [] then 0 else xs[0] + Sum(xs[1..])
  }

  /** The quantities of every order delivered on `day`. */
  function SoldOn(orders: seq<PaidOrder>, day: int): int {
    if orders == [] then 0
    else (if orders[0].day == day then Sum(orders[0].cantidades) else 0) + SoldOn(orders[1..], day)
  }

  /** `fetchTotalProductosVendidos(fecha)`: the sum over the fetched orders
      delivered on that day, or 0 when the request fails (`None`). */
  function TotalSold(fetched: Option<seq<PaidOrder>>, day: int): (r: int)
    ensures fetched.None? ==> r == 0
    ensures fetched.Some? && (forall i :: 0 <= i < |fetched.value| ==> fetched.value[i].day != day) ==> r == 0
    ensures fetched.Some? && NonNegative(fetched.value) ==> r >= 0
  {
    match fetched
    case None => 0
    case Some(orders) =>
      SoldOnBounds(orders, day);
      SoldOn(orders, day)
  }

  lemma {:induction false} SoldOnBounds(orders: seq<PaidOrder>, day: int)
    ensures (forall i :: 0 <= i < |orders| ==> orders[i].day != day) ==> SoldOn(orders, day) == 0
    ensures NonNegative(orders) ==> SoldOn(orders, day) >= 0
  {
    if orders != [] {
      SoldOnBounds(orders[1..], day);
      SumNonNegative(orders[0].cantidades);
      assert forall i :: 0 <= i < |orders[1..]| ==> orders[1..][i] == orders[i + 1];
    }
  }

  lemma {:induction false} SumNonNegative(xs: seq<int>)
    ensures (forall k :: 0 <= k < |xs| ==> xs[k] >= 0) ==> Sum(xs) >= 0
  {
    if xs != [] {
      SumNonNegative(xs[1..]);
      assert forall k :: 0 <= k < |xs[1..]| ==> xs[1..][k] == xs[k + 1];
    }
  }

  /** The count adds up over any split of the fetched orders, so it does not
      depend on how the orders are grouped. */
  lemma {:induction false} SoldOnAppend(a: seq<PaidOrder>, b: seq<PaidOrder>, day: int)
    ensures SoldOn(a + b, day) == SoldOn(a, day) + SoldOn(b, day)
  {
    if a == [] {
      assert a + b == b;
    } else {
      assert (a + b)[0] == a[0];
      assert (a + b)[1..] == a[1..] + b;
      SoldOnAppend(a[1..], b, day);
    }
  }

  /** One order delivered that day contributes the sum of its quantities. */
  lemma SoldOnSingle(o: PaidOrder, day: int)
    ensures SoldOn([o], day) == if o.day == day then Sum(o.cantidades) else 0
  {
    assert [o][1..] == [];
  }

  // ---- Listing ----

  function Shown(pedidos: seq<Pedido>, search: string, page: int): (r: seq<Pedido>)
    ensures |r| <= PedidosPerPage
    ensures forall i :: 0 <= i < |r| ==> r[i] in pedidos && MatchesSearch(r[i].clienteNombre, search)
  {
    Listing.Shown(pedidos, (p: Pedido) => p.clienteNombre, search, page, PedidosPerPage)
  }
}
