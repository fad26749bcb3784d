/** The sales screen: a sale names an order number, a client, a date, a
    status and lines of (product, quantity, unit price). Choosing an order
    fills the sale from it, pricing each line from the product catalogue.
    Saving requires every field and at least one complete line. */
module Ventas {
  import opened Wrappers
  import opened JsString
  import opened JsValue
  import opened Listing
  import opened LineItems
  import opened Forms

  /** A sale line: values from selects and number inputs, or copied from an
      order. */
  datatype Line = Line(idProducto: Value, cantidad: Value, precio: Value)

  /** The sale being created. */
  datatype Form = Form(numeroPedido: Value, idCliente: Value, fecha: string, estado: string,
                       pagado: bool, lines: seq<Line>)

  /** An order line and an order as fetched; a missing payment date is
      `None`. */
  datatype PedidoLine = PedidoLine(idProducto: Value, cantidad: Value)
  datatype Pedido = Pedido(numero: Value, idCliente: Value, fechaPago: Option<string>,
                           detalles: seq<PedidoLine>)

  /** A catalogue product: its id and its price as fetched. */
  datatype Producto = Producto(id: Value, precio: Value)

  /** A sale as listed: the client's name, and the instant `new Date` gives
      for its date (dates are compared as such instants). */
  datatype Venta = Venta(id: int, clienteNombre: string, fecha: int)

  /** What is submitted. The source converts ids and amounts with
      `parseInt`/`parseFloat`; here the values travel unconverted. */
  datatype Payload = Payload(idCliente: Value, numeroPedido: Value, fecha: string, estado: string,
                             pagado: bool, lines: seq<Line>)

  const VentasPerPage: nat := 5

  /** `handleCreate`: no order, client or date, status "pendiente", unpaid,
      no line. */
  const NewForm := Form(Str(""), Str(""), "", "pendiente", false, [])

  const EmptyLine := Line(Str(""), Str(""), Str(""))

  // ---- Validation in handleSave ----

  function FieldChecks(numero: Option<string>, cliente: Option<string>, fecha: Option<string>,
                       estado: Option<string>, detalle: Option<string>): seq<FieldCheck> {
    [FieldCheck("numero_pedido", numero), FieldCheck("id_cliente", cliente), FieldCheck("fecha_venta", fecha),
     FieldCheck("estado", estado), FieldCheck("detalleVentas", detalle)]
  }

  lemma KeysHaveNoDigit()
    ensures NoDigit("numero_pedido") && NoDigit("id_cliente") && NoDigit("fecha_venta")
    ensures NoDigit("estado") && NoDigit("detalleVentas")
  {
    assert NoDigit("numero_pedido") && NoDigit("id_cliente") && NoDigit("fecha_venta");
  }

  lemma FieldChecksWellFormed(numero: Option<string>, cliente: Option<string>, fecha: Option<string>,
                              estado: Option<string>, detalle: Option<string>)
    ensures WellFormedChecks(FieldChecks(numero, cliente, fecha, estado, detalle))
  {
    var checks := FieldChecks(numero, cliente, fecha, estado, detalle);
    KeysHaveNoDigit();
    assert checks[0].key[0] == 'n' && checks[1].key[0] == 'i' && checks[2].key[0] == 'f'
           && checks[3].key[0] == 'e' && checks[4].key[0] == 'd';
    DistinctFirstChars(checks);
  }

  function ProductoCheck(d: Line): Option<string> {
    if !Truthy(d.idProducto) then Some("El producto es obligatorio") else None
  }

  function CantidadCheck(d: Line): Option<string> {
    if !Truthy(d.cantidad) then Some("La cantidad es obligatoria") else None
  }

  function PrecioCheck(d: Line): Option<string> {
    if !Truthy(d.precio) then Some("El precio unitario es obligatorio") else None
  }

  const RowRules: seq<RowRule<Line>> :=
    [RowRule("producto_", ProductoCheck), RowRule("cantidad_", CantidadCheck), RowRule("precio_", PrecioCheck)]

  lemma RulesWellFormed()
    ensures WellFormedRules(RowRules)
  {
    assert NoDigit("producto_") && NoDigit("cantidad_") && NoDigit("precio_");
  }

  /** A line is complete when product, quantity and price are all truthy. */
  predicate LineComplete(d: Line) {
    Truthy(d.idProducto) && Truthy(d.cantidad) && Truthy(d.precio)
  }

  lemma RowRulesMeaning(d: Line)
    ensures RowPasses(RowRules, d) <==> LineComplete(d)
  {
    assert RowRules[0].check(d) == ProductoCheck(d);
    assert RowRules[1].check(d) == CantidadCheck(d);
    assert RowRules[2].check(d) == PrecioCheck(d);
    if LineComplete(d) {
      forall a | 0 <= a < 3 ensures RowRules[a].check(d).None? {
        if a == 0 {} else if a == 1 {} else {}
      }
    }
  }

  /** The shared validator on the sale's checks and line tests. */
  function RunValidator(numero: Option<string>, cliente: Option<string>, fecha: Option<string>,
                        estado: Option<string>, detalle: Option<string>, lines: seq<Line>): Errors {
    FieldChecksWellFormed(numero, cliente, fecha, estado, detalle);
    RulesWellFormed();
    Validator(FieldChecks(numero, cliente, fecha, estado, detalle), lines, RowRules)
  }

  /** The top-level checks all pass exactly when the five outcomes are None. */
  lemma FieldChecksPass(numero: Option<string>, cliente: Option<string>, fecha: Option<string>,
                        estado: Option<string>, detalle: Option<string>)
    ensures var checks := FieldChecks(numero, cliente, fecha, estado, detalle);
            (forall a :: 0 <= a < |checks| ==> checks[a].error.None?) <==>
              numero.None? && cliente.None? && fecha.None? && estado.None? && detalle.None?
  {
    var checks := FieldChecks(numero, cliente, fecha, estado, detalle);
    assert checks[0].error == numero && checks[1].error == cliente && checks[2].error == fecha;
    assert checks[3].error == estado && checks[4].error == detalle;
    if numero.None? && cliente.None? && fecha.None? && estado.None? && detalle.None? {
      forall a | 0 <= a < |checks| ensures checks[a].error.None? {
        if a == 0 {} else if a == 1 {} else if a == 2 {} else if a == 3 {} else {}
      }
    }
  }

  /** The row tests pass on every line exactly when every line is complete. */
  lemma LinesPass(lines: seq<Line>)
    ensures AllRowsPass(RowRules, lines) <==> forall i :: 0 <= i < |lines| ==> LineComplete(lines[i])
  {
    forall i | 0 <= i < |lines| ensures RowPasses(RowRules, lines[i]) <==> LineComplete(lines[i]) {
      RowRulesMeaning(lines[i]);
    }
  }

  /** The error object for given header outcomes and lines: a key per
      failing header field and per failing line test. */
  function Collect(numero: Option<string>, cliente: Option<string>, fecha: Option<string>,
                   estado: Option<string>, detalle: Option<string>, lines: seq<Line>): (r: Errors)
    ensures "numero_pedido" in r <==> numero.Some?
    ensures "id_cliente" in r <==> cliente.Some?
    ensures "fecha_venta" in r <==> fecha.Some?
    ensures "estado" in r <==> estado.Some?
    ensures "detalleVentas" in r <==> detalle.Some?
    ensures r == map[] <==>
              numero.None? && cliente.None? && fecha.None? && estado.None? && detalle.None?
              && forall i :: 0 <= i < |lines| ==> LineComplete(lines[i])
  {
    HeaderKeys(numero, cliente, fecha, estado, detalle, lines);
    NoErrorsIff(numero, cliente, fecha, estado, detalle, lines);
    RunValidator(numero, cliente, fecha, estado, detalle, lines)
  }

  lemma HeaderKeys(numero: Option<string>, cliente: Option<string>, fecha: Option<string>,
                   estado: Option<string>, detalle: Option<string>, lines: seq<Line>)
    ensures var r := RunValidator(numero, cliente, fecha, estado, detalle, lines);
            && ("numero_pedido" in r <==> numero.Some?)
            && ("id_cliente" in r <==> cliente.Some?)
            && ("fecha_venta" in r <==> fecha.Some?)
            && ("estado" in r <==> estado.Some?)
            && ("detalleVentas" in r <==> detalle.Some?)
  {
    var checks := FieldChecks(numero, cliente, fecha, estado, detalle);
    FieldChecksWellFormed(numero, cliente, fecha, estado, detalle);
    RulesWellFormed();
    assert checks[0].key == "numero_pedido" && checks[1].key == "id_cliente" && checks[2].key == "fecha_venta"
           && checks[3].key == "estado" && checks[4].key == "detalleVentas";
    assert checks[0].error == numero && checks[1].error == cliente && checks[2].error == fecha;
    assert checks[3].error == estado && checks[4].error == detalle;
  }

  lemma NoErrorsIff(numero: Option<string>, cliente: Option<string>, fecha: Option<string>,
                    estado: Option<string>, detalle: Option<string>, lines: seq<Line>)
    ensures RunValidator(numero, cliente, fecha, estado, detalle, lines) == map[] <==>
              numero.None? && cliente.None? && fecha.None? && estado.None? && detalle.None?
              && forall i :: 0 <= i < |lines| ==> LineComplete(lines[i])
  {
    FieldChecksWellFormed(numero, cliente, fecha, estado, detalle);
    RulesWellFormed();
    FieldChecksPass(numero, cliente, fecha, estado, detalle);
    LinesPass(lines);
  }

  /** The errors `handleSave` collects: each missing field under its own
      name; none at all exactly when every field is set and there is at
      least one line, every one complete. */
  function Validate(form: Form): (r: Errors)
    ensures "numero_pedido" in r <==> !Truthy(form.numeroPedido)
    ensures "id_cliente" in r <==> !Truthy(form.idCliente)
    ensures "fecha_venta" in r <==> form.fecha == ""
    ensures "estado" in r <==> form.estado == ""
    ensures "detalleVentas" in r <==> form.lines == []
    ensures r == map[] <==>
              Truthy(form.numeroPedido) && Truthy(form.idCliente) && form.fecha != "" && form.estado != ""
              && form.lines != [] && forall i :: 0 <= i < |form.lines| ==> LineComplete(form.lines[i])
  {
    Collect(Required(!Truthy(form.numeroPedido), "El número de pedido es obligatorio"),
            Required(!Truthy(form.idCliente), "El cliente es obligatorio "),
            Required(form.fecha == "", "La fecha de venta es obligatoria"),
            Required(form.estado == "", "El estado es obligatorio"),
            Required(|form.lines| == 0, "Debe agregar al menos un detalle de venta"),
            form.lines)
  }

  /** Line `i`'s missing product, quantity or price is reported under
      "producto_i", "cantidad_i" and "precio_i". */
  lemma LineErrors(form: Form, i: int)
    requires 0 <= i < |form.lines|
    ensures RowKey("producto_", i) in Validate(form) <==> !Truthy(form.lines[i].idProducto)
    ensures RowKey("cantidad_", i) in Validate(form) <==> !Truthy(form.lines[i].cantidad)
    ensures RowKey("precio_", i) in Validate(form) <==> !Truthy(form.lines[i].precio)
  {
    var n, c := Required(!Truthy(form.numeroPedido), "El número de pedido es obligatorio"),
                Required(!Truthy(form.idCliente), "El cliente es obligatorio ");
    var f, e := Required(form.fecha == "", "La fecha de venta es obligatoria"),
                Required(form.estado == "", "El estado es obligatorio");
    var d := Required(|form.lines| == 0, "Debe agregar al menos un detalle de venta");
    var r := RunValidator(n, c, f, e, d, form.lines);
    assert Validate(form) == Collect(n, c, f, e, d, form.lines) == r;
    FieldChecksWellFormed(n, c, f, e, d);
    RulesWellFormed();
    assert RowKey(RowRules[0].prefix, i) in r <==> ProductoCheck(form.lines[i]).Some?;
    assert RowKey(RowRules[1].prefix, i) in r <==> CantidadCheck(form.lines[i]).Some?;
    assert RowKey(RowRules[2].prefix, i) in r <==> PrecioCheck(form.lines[i]).Some?;
  }

  datatype SaveOutcome = Invalid(errors: Errors) | Submitted(payload: Payload)

  /** `handleSave`: any error stops the save; otherwise the sale is
      submitted with its lines in order. */
  function Save(form: Form): (r: SaveOutcome)
    ensures r.Invalid? <==> Validate(form) != map[]
    ensures r.Invalid? ==> r.errors == Validate(form)
    ensures r.Submitted? ==>
              r.payload.idCliente == form.idCliente && r.payload.numeroPedido == form.numeroPedido
              && r.payload.fecha == form.fecha && r.payload.estado == form.estado
              && r.payload.pagado == form.pagado && r.payload.lines == form.lines
  {
    var errors := Validate(form);
    if errors != map[] then Invalid(errors)
    else Submitted(Payload(form.idCliente, form.numeroPedido, form.fecha, form.estado, form.pagado, form.lines))
  }

  /** A submitted sale has at least one line and every line carries a
      product, a quantity and a price. */
  lemma SubmittedLinesComplete(form: Form, i: int)
    requires Save(form).Submitted? && 0 <= i < |Save(form).payload.lines|
    ensures Save(form).payload.lines != [] && LineComplete(Save(form).payload.lines[i])
  {
  }

  /** A new sale cannot be saved: it has no order, client, date or line. */
  lemma NewFormRejected()
    ensures Save(NewForm).Invalid?
    ensures "numero_pedido" in Save(NewForm).errors && "detalleVentas" in Save(NewForm).errors
  {
  }

  // ---- Lines ----

  /** `handleAddDetalle`. */
  function AddLine(form: Form): (r: Form)
    ensures |r.lines| == |form.lines| + 1 && r.lines[..|form.lines|] == form.lines
    ensures r.lines[|form.lines|] == EmptyLine
    ensures r.(lines := form.lines) == form
  {
    form.(lines := Append(form.lines, EmptyLine))
  }

  /** `handleRemoveDetalle(index)`: `splice(index, 1)`. */
  function RemoveLine(form: Form, index: int): (r: Form)
    ensures r.(lines := form.lines) == form
    ensures 0 <= index < |form.lines| ==> r.lines == form.lines[..index] + form.lines[index + 1..]
    ensures index >= |form.lines| ==> r == form
  {
    form.(lines := RemoveAt(form.lines, index))
  }

  lemma RemoveAddedLine(form: Form)
    ensures RemoveLine(AddLine(form), |form.lines|) == form
  {
    RemoveUndoesAppend(form.lines, EmptyLine);
  }

  /** An added line is empty, so the sale cannot be saved until it is filled
      in. */
  lemma AddedLineBlocksSave(form: Form)
    ensures Save(AddLine(form)).Invalid?
    ensures RowKey("producto_", |form.lines|) in Save(AddLine(form)).errors
  {
    assert !LineComplete(AddLine(form).lines[|form.lines|]);
    LineErrors(AddLine(form), |form.lines|);
  }

  datatype LineField = IdProducto | Cantidad | PrecioUnitario

  /** `handleDetalleChange(index, e)`: the value is stored in that line and
      no other line changes. */
  function EditLine(form: Form, index: int, field: LineField, value: Value): (r: Form)
    requires 0 <= index < |form.lines|
    ensures r.(lines := form.lines) == form && |r.lines| == |form.lines|
    ensures forall j :: 0 <= j < |form.lines| && j != index ==> r.lines[j] == form.lines[j]
    ensures field == IdProducto ==> r.lines[index] == form.lines[index].(idProducto := value)
    ensures field == Cantidad ==> r.lines[index] == form.lines[index].(cantidad := value)
    ensures field == PrecioUnitario ==> r.lines[index] == form.lines[index].(precio := value)
  {
    var edit := (d: Line) =>
      match field
      case IdProducto => d.(idProducto := value)
      case Cantidad => d.(cantidad := value)
      case PrecioUnitario => d.(precio := value);
    form.(lines := Update(form.lines, index, edit))
  }

  // ---- Choosing an order ----

  predicate HasNumero(numero: Value, p: Pedido) {
    StrictEquals(p.numero, numero)
  }

  predicate HasProductId(id: Value, p: Producto) {
    StrictEquals(p.id, id)
  }

  /** `productos.find(p => p.id_producto === id)?.precio || 0`: the
      catalogue price of the first product with that id, unless there is no
      such product or its price is falsy, in which case 0. */
  function PriceOf(productos: seq<Producto>, id: Value): (r: Value)
    ensures (forall i :: 0 <= i < |productos| ==> !StrictEquals(productos[i].id, id)) ==> r == Num(0.0)
    ensures (exists i :: 0 <= i < |productos| && StrictEquals(productos[i].id, id)) ==>
              exists i :: 0 <= i < |productos| && StrictEquals(productos[i].id, id)
                          && (forall j :: 0 <= j < i ==> !StrictEquals(productos[j].id, id))
                          && r == (if Truthy(productos[i].precio) then productos[i].precio else Num(0.0))
  {
    match Find(productos, p => HasProductId(id, p))
    case None => Num(0.0)
    case Some(p) => if Truthy(p.precio) then p.precio else Num(0.0)
  }

  /** The sale lines built from an order's lines. */
  function LinesFrom(detalles: seq<PedidoLine>, productos: seq<Producto>): (r: seq<Line>)
    ensures |r| == |detalles|
    ensures forall i :: 0 <= i < |detalles| ==>
              r[i] == Line(detalles[i].idProducto, detalles[i].cantidad, PriceOf(productos, detalles[i].idProducto))
  {
    seq(|detalles|, i requires 0 <= i < |detalles| =>
          Line(detalles[i].idProducto, detalles[i].cantidad, PriceOf(productos, detalles[i].idProducto)))
  }

  /** `handlePedidoChange(numero)`: the first order with that number sets
      the client, the number, the date (from its payment date) and the lines
      (priced from the catalogue); status and paid flag are kept. With no
      such order the sale is unchanged. */
  function ChooseOrder(form: Form, pedidos: seq<Pedido>, productos: seq<Producto>, numero: Value): (r: Form)
    ensures (forall i :: 0 <= i < |pedidos| ==> !StrictEquals(pedidos[i].numero, numero)) ==> r == form
    ensures (exists i :: 0 <= i < |pedidos| && StrictEquals(pedidos[i].numero, numero)) ==>
              exists i :: 0 <= i < |pedidos| && StrictEquals(pedidos[i].numero, numero)
                          && (forall j :: 0 <= j < i ==> !StrictEquals(pedidos[j].numero, numero))
                          && r == form.(idCliente := pedidos[i].idCliente, numeroPedido := pedidos[i].numero,
                                        fecha := DatePart(pedidos[i].fechaPago),
                                        lines := LinesFrom(pedidos[i].detalles, productos))
  {
    match Find(pedidos, p => HasNumero(numero, p))
    case None => form
    case Some(p) =>
      form.(idCliente := p.idCliente, numeroPedido := p.numero, fecha := DatePart(p.fechaPago),
            lines := LinesFrom(p.detalles, productos))
  }

  /** Choosing an order keeps the status and paid flag, and gives the sale
      one line per order line, in order, with the order's product and
      quantity. */
  lemma ChosenOrderLines(form: Form, pedidos: seq<Pedido>, productos: seq<Producto>, i: int)
    requires 0 <= i < |pedidos| && forall j :: 0 <= j < i ==> !StrictEquals(pedidos[j].numero, pedidos[i].numero)
    requires !pedidos[i].numero.NaN?
    ensures var r := ChooseOrder(form, pedidos, productos, pedidos[i].numero);
            r.estado == form.estado && r.pagado == form.pagado && r.numeroPedido == pedidos[i].numero
            && |r.lines| == |pedidos[i].detalles|
            && forall k :: 0 <= k < |r.lines| ==>
                 r.lines[k].idProducto == pedidos[i].detalles[k].idProducto
                 && r.lines[k].cantidad == pedidos[i].detalles[k].cantidad
  {
    assert StrictEquals(pedidos[i].numero, pedidos[i].numero);
    var r := ChooseOrder(form, pedidos, productos, pedidos[i].numero);
    var k :| 0 <= k < |pedidos| && StrictEquals(pedidos[k].numero, pedidos[i].numero)
             && (forall j :: 0 <= j < k ==> !StrictEquals(pedidos[j].numero, pedidos[i].numero))
             && r == form.(idCliente := pedidos[k].idCliente, numeroPedido := pedidos[k].numero,
                           fecha := DatePart(pedidos[k].fechaPago),
                           lines := LinesFrom(pedidos[k].detalles, productos));
    assert k == i;
  }

  /** An order line whose product is missing from the catalogue is priced
      0, so the sale built from that order is refused with a price error on
      that line. */
  lemma UnknownProductBlocksSave(form: Form, pedidos: seq<Pedido>, productos: seq<Producto>,
                                 numero: Value, k: int)
    requires exists i :: 0 <= i < |pedidos| && StrictEquals(pedidos[i].numero, numero)
    requires var r := ChooseOrder(form, pedidos, productos, numero);
             0 <= k < |r.lines| && forall j :: 0 <= j < |productos| ==> !StrictEquals(productos[j].id, r.lines[k].idProducto)
    ensures var r := ChooseOrder(form, pedidos, productos, numero);
            r.lines[k].precio == Num(0.0) && Save(r).Invalid? && RowKey("precio_", k) in Save(r).errors
  {
    var r := ChooseOrder(form, pedidos, productos, numero);
    var i :| 0 <= i < |pedidos| && StrictEquals(pedidos[i].numero, numero)
             && (forall j :: 0 <= j < i ==> !StrictEquals(pedidos[j].numero, numero))
             && r == form.(idCliente := pedidos[i].idCliente, numeroPedido := pedidos[i].numero,
                           fecha := DatePart(pedidos[i].fechaPago),
                           lines := LinesFrom(pedidos[i].detalles, productos));
    assert r.lines[k].precio == PriceOf(productos, pedidos[i].detalles[k].idProducto);
    LineErrors(r, k);
  }

  // ---- Status update ----

  /** The choices of the status dialog, in order. */
  const StatusOptions: seq<string> := ["pendiente", "en preparación", "completado"]

  /** `handleUpdateState`: the dialog yields nothing when cancelled, and
      when confirmed the selected option, or "" while the placeholder is
      still selected; `if (estado)` makes the request exactly for a
      non-empty choice, and it carries that choice. */
  function StatusRequest(chosen: Option<string>): (r: Option<string>)
    ensures r.Some? <==> chosen.Some? && chosen.value != ""
    ensures r.Some? ==> r.value == chosen.value
  {
    match chosen
    case None => None
    case Some(estado) => if estado != "" then Some(estado) else None
  }

  /** Confirming with the placeholder still selected sends nothing, like
      cancelling; every offered option is sent as itself. */
  lemma PlaceholderSendsNothing(estado: string)
    requires estado in StatusOptions
    ensures StatusRequest(Some("")) == StatusRequest(None) == None
    ensures StatusRequest(Some(estado)) == Some(estado)
  {
    assert forall i :: 0 <= i < |StatusOptions| ==> StatusOptions[i] != "";
  }

  /** The three choices are distinct and the request can carry each of them. */
  lemma StatusOptionsDistinct()
    ensures |StatusOptions| == 3
    ensures forall i, j :: 0 <= i < j < |StatusOptions| ==> StatusOptions[i] != StatusOptions[j]
    ensures forall i :: 0 <= i < |StatusOptions| ==> StatusRequest(Some(StatusOptions[i])) == Some(StatusOptions[i])
  {
    assert StatusOptions[0][0] == 'p' && StatusOptions[1][0] == 'e' && StatusOptions[2][0] == 'c';
  }

  // ---- Listing ----

  /** Both bounds of the date range, when both inputs are set. */
  datatype Range = NoRange | Between(start: int, end: int)

  /** `if (startDate && endDate)`: a range applies only when both are set. */
  function RangeOf(start: Option<int>, end: Option<int>): Range {
    if start.Some? && end.Some? then Between(start.value, end.value) else NoRange
  }

  predicate InRange(range: Range, v: Venta) {
    range.NoRange? || (range.start <= v.fecha && v.fecha <= range.end)
  }

  predicate Listed(search: string, range: Range, v: Venta) {
    MatchesSearch(v.clienteNombre, search) && InRange(range, v)
  }

  /** `filterVentas`: the client-name search, then the inclusive date range
      when both dates are set. */
  function Filter(ventas: seq<Venta>, search: string, start: Option<int>, end: Option<int>): (r: seq<Venta>)
    ensures forall i :: 0 <= i < |r| ==> r[i] in ventas && Listed(search, RangeOf(start, end), r[i])
    ensures forall i :: 0 <= i < |ventas| && Listed(search, RangeOf(start, end), ventas[i]) ==> ventas[i] in r
  {
    var range := RangeOf(start, end);
    var named := Search(ventas, (v: Venta) => v.clienteNombre, search);
    if range.NoRange? then named else Keep(named, v => InRange(range, v))
  }

  /** With either date unset the filter is the name search alone; with
      both set it narrows the name search. */
  lemma FilterWithoutRange(ventas: seq<Venta>, search: string, start: Option<int>, end: Option<int>)
    ensures start.None? || end.None? ==>
              Filter(ventas, search, start, end) == Search(ventas, (v: Venta) => v.clienteNombre, search)
    ensures |Filter(ventas, search, start, end)| <= |Search(ventas, (v: Venta) => v.clienteNombre, search)|
  {
  }

  function Shown(ventas: seq<Venta>, search: string, start: Option<int>, end: Option<int>, page: int): (r: seq<Venta>)
    ensures |r| <= VentasPerPage
    ensures forall i :: 0 <= i < |r| ==> r[i] in ventas && Listed(search, RangeOf(start, end), r[i])
  {
    PageItems(Filter(ventas, search, start, end), page, VentasPerPage)
  }
}
