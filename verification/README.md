# Delicrem admin console — decision logic in Dafny

Delicrem's admin console is a React single-page application for a bakery.
It manages roles and permissions, users, customers, suppliers, supply
categories, supplies, recipes (technical sheets), finished products and
production, orders, purchases and sales. This project models the pure
decisions its pages make:

- which menu entries a role's permissions let through (`filterRoutes`);
- how each form validates, and the exact message it writes under each key;
- what a save sends, or why it sends nothing;
- how line-item rows are added, removed and edited;
- how the lists are searched and paged;
- how the sign-in page turns the backend's answers into a session.

HTTP requests, toasts, dialogs and React state are not modelled. A request's
answer is a parameter, and each handler is a pure function from the state it
reads to the state or request it produces.

JavaScript values that matter for the checks (`""`, numbers, `NaN`, `null`)
are modelled by `JsValue.Value`:

- truthiness follows `!x`;
- `===` is `StrictEquals`, and `NaN` is never equal to anything;
- `Number(...)` on text is `StringToNumber`: after trimming, the empty text is 0,
  and otherwise an optional sign, a decimal literal and an optional exponent
  (`"1e3"` is 1000); anything else is `NaN`.

Regular expressions are written out as predicates over characters
(`NamePatterns`). `String.prototype.trim` follows the ECMAScript
white-space and line-terminator set (`JsString.IsSpace`).

Shared modules:

- `Wrappers`: `Option`.
- `JsString`: trim, lower-case, `includes`, `split('T')[0]`, the
  one-match `replace`.
- `JsValue`: values, truthiness, `===`, `indexOf`, `Number`.
- `NamePatterns`: the character classes and the e-mail pattern.
- `Forms`: the error object as a map from key to message, field keys,
  `prefix_index` row keys, and the row-by-row validator.
- `LineItems`: appending, `splice`-removing and editing rows; repeats.
- `Listing`: the lower-cased search, `slice` paging and the page buttons.

Each page is its own module: `Routes`, `Roles`, `Compras`, `FichaTecnica`,
`Ventas`, `Pedidos`, `ProductoTerminado`, `Proveedores`, `Usuarios`,
`Clientes`, `Insumos`, `CategoriaInsumos` and `SignIn`.

## Model

| member | source | states |
|---|---|---|
| Routes.Restrict | src/routes.jsx:157-159 | A route keeps its title and layout and exactly the pages whose name is among the permissions, each one taken from the original route. |
| Routes.FilterRoutes | src/routes.jsx:156-161 | Every route left has at least one page. Every page left is permitted. Every route left is the restriction of some input route. |
| Routes.PageShownIff | src/routes.jsx:156-161 | A page appears in the filtered menu if and only if it is permitted and belongs to some input route. |
| Routes.RouteKeptIff | src/routes.jsx:156-161 | A route's restriction is kept if and only if at least one of its pages is permitted. |
| Routes.FilterRoutesAppend | src/routes.jsx:156-161 | Filtering keeps route order: filtering two joined route lists gives the two filtered lists joined. |
| Routes.RestrictAppend | src/routes.jsx:159 | Restricting keeps page order: extra pages add only their permitted ones, at the end. |
| Routes.NoPermissionsNoRoutes | src/routes.jsx:156-161 | With no permissions the menu is empty. |
| Routes.AllPermittedKeepsAll | src/routes.jsx:156-161 | When every page is permitted and every route has pages, the menu is the input unchanged. |
| Routes.MatchIsCaseSensitive | src/routes.jsx:159 | The permission test is exact: the permission "roles" does not admit the page "Roles". |
| Roles.FindRolesPermiso | src/pages/dashboard/roles.jsx:164 | The result is missing exactly when no catalogue permission is named "roles" in any case; when found, it is such a permission from the catalogue. |
| Roles.Edit | src/pages/dashboard/roles.jsx:86-93 | The edit form holds the role's name and the ids of its permissions, in order. A role without permissions gives an empty list. |
| Roles.Toggle | src/pages/dashboard/roles.jsx:202-214 | For the administrator role, the "roles" permission cannot be changed. Otherwise a held id is removed: the list becomes the held list filtered to the other ids, in their order. An id not held is appended. |
| Roles.KeptWithout | src/pages/dashboard/roles.jsx:210 | The filter that unticks an id removes exactly that id and shortens the list. |
| Roles.ToggleTwiceRestores | src/pages/dashboard/roles.jsx:202-214 | Ticking an unlocked, unheld permission and then unticking it restores the form. |
| Roles.UntickRemovesTheEntry | src/pages/dashboard/roles.jsx:208-210 | Unticking a permission held once, with other ids before and after it, leaves exactly the ids before followed by the ids after. |
| Roles.DropSingle | src/pages/dashboard/roles.jsx:210 | The unticking filter applied to a list holding the id once joins the parts on either side of it. |
| Roles.SavedPermisos | src/pages/dashboard/roles.jsx:163-168 | For the administrator, the saved list always contains the "roles" permission, appended when missing. Any other list is saved unchanged. |
| Roles.Save | src/pages/dashboard/roles.jsx:144-195 | A save is refused, with the name-required message, exactly when the name is blank after trimming. Otherwise it sends the name and the saved permission list. |
| Roles.AdminKeepsRolesPermission | src/pages/dashboard/roles.jsx:163-168 | A saved administrator role always carries the "roles" permission. When it already did, the list is unchanged. |
| Roles.Shown | src/pages/dashboard/roles.jsx:76-81 | A page holds at most five roles, each one from the list and matching the search. |
| Compras.ValidateWith | src/pages/dashboard/compras.jsx:114-143 | Each header key is present exactly when its field is empty. Each row key is present exactly when that row's rule fails. The form is clean exactly when every field and every row passes. |
| Compras.RowRulesMeaning | src/pages/dashboard/compras.jsx:131-138 | The corrected row rules pass exactly when the supply is chosen and both quantity and price are positive numbers. |
| Compras.RowRulesAsWrittenMeaning | src/pages/dashboard/compras.jsx:131-138 | The rules as written pass exactly when the supply is chosen and neither number tests `<= 0`. A `NaN` therefore passes. |
| Compras.Validate | src/pages/dashboard/compras.jsx:114-143 | The purchase validates exactly when the supplier, date and state are set, there are lines, and each line has a supply and positive numbers. The row keys say which line failed which test. |
| Compras.ValidateAsWritten | src/pages/dashboard/compras.jsx:114-143 | As written, a line is accepted unless its quantity or price tests `<= 0`. |
| Compras.SaveAfter | src/pages/dashboard/compras.jsx:145-174 | Errors stop the save. A clean form with a repeated supply is refused as a duplicate. Otherwise the payload carries the form's supplier, date, state and lines. |
| Compras.Save | src/pages/dashboard/compras.jsx:145-191 | A purchase is sent exactly when it validates and no supply id (taken from the lines in order) repeats. Every sent line is complete and positive. |
| Compras.SaveAsWritten | src/pages/dashboard/compras.jsx:145-191 | As written, a purchase is sent when the `<= 0` checks pass and no supply repeats. |
| Compras.DuplicateIgnoresLineOrder | src/pages/dashboard/compras.jsx:155-163 | Reordering the lines does not change whether the duplicate check fires. |
| Compras.IdsSplit | src/pages/dashboard/compras.jsx:155 | The supply ids of joined line lists are the two id lists joined. |
| Compras.EditLine | src/pages/dashboard/compras.jsx:199-213 | Editing changes only the edited line's field. The quantity loses its first non-digit. The price loses its first character that is neither a digit nor a dot. |
| Compras.OneKeystrokeKeepsDigits | src/pages/dashboard/compras.jsx:204 | Typing one character into an all-digit quantity leaves it all digits, and a typed digit is kept. |
| Compras.PastedQuantityKeepsLetter | src/pages/dashboard/compras.jsx:204 | The sanitiser removes only the first non-digit: "a1b" becomes "1b". |
| Compras.PriceKeepsEveryDot | src/pages/dashboard/compras.jsx:206 | A price made of digits and dots passes the sanitiser unchanged, however many dots it has. |
| Compras.ClearAfterEdit | src/pages/dashboard/compras.jsx:388-433 | Each detail input's handler writes its own key at line 212 and then the key the validator uses; the second write wins, so the validator's message for that field and row is blanked, one more key may appear, and every other message is kept. |
| Compras.HandlerWriteOverridden | src/pages/dashboard/compras.jsx:212-433 | For the price, the handler's own write adds `precio_unitario_i`, which the input's second write then drops again. For the quantity, both writes use the same key, so the second changes nothing. |
| Compras.AddLine | src/pages/dashboard/compras.jsx:215-220 | Adding puts one empty line at the end and keeps everything else. |
| Compras.RemoveLine | src/pages/dashboard/compras.jsx:222-226 | Removing index i drops exactly line i and keeps everything else. |
| Compras.RemoveAddedLine | src/pages/dashboard/compras.jsx:215-226 | Removing the line just added restores the form. |
| Compras.Filter | src/pages/dashboard/compras.jsx:91-96 | Every listed purchase is from the list and passes the list's test: a supplier name that is present and matches the search. Every purchase passing it is listed. |
| Compras.ListedIff | src/pages/dashboard/compras.jsx:91-96 | A purchase of the list is shown exactly when its supplier name is present and matches the search. |
| Compras.EmptySearchListsNamed | src/pages/dashboard/compras.jsx:91-96 | With an empty search, exactly the purchases with a supplier name are listed. |
| Compras.Shown | src/pages/dashboard/compras.jsx:247-249 | A page holds at most six purchases, each from the list and with a supplier name. |
| Compras.ExponentPriceBecomesNaN | src/pages/dashboard/compras.jsx:206 | The price sanitiser drops only the 'e' of "1e-5", leaving "1-5", and `Number("1-5")` is `NaN`. |
| Compras.PositiveDigitsPass | src/pages/dashboard/compras.jsx:133-138 | Digits spelling a number above zero pass the quantity test, both as written and as intended. |
| Compras.NaNPriceLinePassesAsWritten | src/pages/dashboard/compras.jsx:133-138 | A line with a supply, a positive whole quantity and a price that converts to `NaN` passes the row rules as written and fails the corrected ones. |
| Compras.TypingExponentPrice | src/pages/dashboard/compras.jsx:199-213 | Typing "1e-5" into a blank price stores "1-5". |
| Compras.NaNPriceAcceptedAsWritten | src/pages/dashboard/compras.jsx:114-191 | A one-line purchase with its header set, a positive whole quantity and a `NaN` price validates as written and is sent. The corrected validator refuses it. |
| Compras.ExponentPriceAcceptedAsWritten | src/pages/dashboard/compras.jsx:114-213 | Typing "1e-5" as the price yields a purchase that validates as written and is sent, while the corrected validator refuses it. |
| Compras.ValidLinesArePositive | src/pages/dashboard/compras.jsx:114-143 | In a validated purchase, every line has a supply and a positive quantity and price. |
| FichaTecnica.IndexOfDuplicateIff | src/pages/dashboard/fichatecnica.jsx:235 | Without `NaN` ids, the `indexOf` test fires exactly when some id repeats. |
| FichaTecnica.NaNIdCountsAsDuplicate | src/pages/dashboard/fichatecnica.jsx:235 | A `NaN` id always makes the `indexOf` test fire. |
| FichaTecnica.AddRow | src/pages/dashboard/fichatecnica.jsx:232-264 | Adding is refused as a duplicate exactly when the test fires. Otherwise it is refused as incomplete exactly when some row is blank. Otherwise one empty row is appended and nothing else changes. |
| FichaTecnica.AddedRowsAreDistinct | src/pages/dashboard/fichatecnica.jsx:232-264 | A row is added only when the ids are distinct and no row is blank. |
| FichaTecnica.AddedRowBlocksNextAdd | src/pages/dashboard/fichatecnica.jsx:232-264 | Right after an add, the next add is refused as incomplete. |
| FichaTecnica.NewSheetBlocksAdd | src/pages/dashboard/fichatecnica.jsx:123-133 | A new sheet has one empty row, so adding is refused until it is filled. |
| FichaTecnica.RemoveRow | src/pages/dashboard/fichatecnica.jsx:268-272 | Removing index i drops exactly row i. An index past the end changes nothing. |
| FichaTecnica.RemoveAddedRow | src/pages/dashboard/fichatecnica.jsx:232-272 | Removing the row just added restores the sheet. |
| FichaTecnica.EditRow | src/pages/dashboard/fichatecnica.jsx:224-230 | Editing changes only that row's field. The message under that field's row key is blanked and every other message is kept. |
| FichaTecnica.RowRulesMeaning | src/pages/dashboard/fichatecnica.jsx:171-174 | A row passes exactly when its supply and quantity are both truthy. |
| FichaTecnica.Validate | src/pages/dashboard/fichatecnica.jsx:165-178 | Each header key is present exactly when its field is empty. Each row key is present exactly when its field is falsy. The sheet is clean exactly when every field and row is filled. |
| FichaTecnica.EditClearsValidatorKey | src/pages/dashboard/fichatecnica.jsx:224-230 | After an edit, the validator flags that row's field exactly when the new value is falsy. |
| FichaTecnica.Save | src/pages/dashboard/fichatecnica.jsx:180-217 | A sheet is refused exactly when it fails validation. Otherwise its product, description, supplies text and rows are sent. |
| FichaTecnica.SaveAcceptsRepeatedSupply | src/pages/dashboard/fichatecnica.jsx:180-217 | The save does not look for repeats: any filled-in sheet whose two rows name the same supply is sent, although adding a row to it would be refused. |
| FichaTecnica.RowlessSheetSaved | src/pages/dashboard/fichatecnica.jsx:165-178 | A sheet with its fields set and no rows is sent. |
| FichaTecnica.TemplateCopy | src/pages/dashboard/fichatecnica.jsx:99-111 | Loading a stored sheet copies its product, description, supplies text, and each detail's supply and quantity; `FichaTecnica.LoadTemplateForgetsSheet` shows nothing typed before survives and loading twice equals loading once. |
| FichaTecnica.LoadTemplate | src/pages/dashboard/fichatecnica.jsx:283-287 | No choice, or an id no stored sheet has, leaves the form. Otherwise the form becomes the copy of the first stored sheet with that id. |
| FichaTecnica.LoadTemplateForgetsSheet | src/pages/dashboard/fichatecnica.jsx:283-287 | Loading a template discards whatever was typed, and loading it twice is the same as loading it once. |
| FichaTecnica.Shown | src/pages/dashboard/fichatecnica.jsx:304-306 | A page holds at most five sheets, each from the list and matching the search on its description. |
| Ventas.RowRulesMeaning | src/pages/dashboard/ventas.jsx:144-154 | A sale line passes exactly when its product, quantity and price are all truthy. |
| Ventas.Validate | src/pages/dashboard/ventas.jsx:129-155 | Each header key is present exactly when its field is falsy or empty. A sale is clean exactly when the headers are set, there are lines, and every line is complete. |
| Ventas.LineErrors | src/pages/dashboard/ventas.jsx:144-154 | Line i's product, quantity and price keys are present exactly when that field is falsy. |
| Ventas.Save | src/pages/dashboard/ventas.jsx:125-191 | A sale is refused with the validator's messages exactly when they are not empty. Otherwise the payload carries the form's customer, order number, date, state, paid flag and lines. |
| Ventas.SubmittedLinesComplete | src/pages/dashboard/ventas.jsx:125-191 | A sent sale has lines, and every one is complete. |
| Ventas.NewFormRejected | src/pages/dashboard/ventas.jsx:111-123 | The new-sale form is refused: the order number and detail keys are set. |
| Ventas.AddLine | src/pages/dashboard/ventas.jsx:207-212 | Adding puts one empty line at the end and keeps everything else. |
| Ventas.RemoveLine | src/pages/dashboard/ventas.jsx:214-218 | Removing index i drops exactly line i. An index past the end changes nothing. |
| Ventas.RemoveAddedLine | src/pages/dashboard/ventas.jsx:207-218 | Removing the line just added restores the form. |
| Ventas.AddedLineBlocksSave | src/pages/dashboard/ventas.jsx:207-212 | A freshly added line blocks the save under its own product key. |
| Ventas.EditLine | src/pages/dashboard/ventas.jsx:199-205 | Editing changes only that line's field. |
| Ventas.PriceOf | src/pages/dashboard/ventas.jsx:274 | The price is that of the first product whose id is `===` the line's. It is 0 when no product has that id or its price is falsy. |
| Ventas.LinesFrom | src/pages/dashboard/ventas.jsx:271-276 | Each order detail becomes a sale line with the same product and quantity, priced by `PriceOf`; `Ventas.ChosenOrderLines` shows choosing an order puts exactly these lines in the form. |
| Ventas.ChooseOrder | src/pages/dashboard/ventas.jsx:263-278 | An unknown order number leaves the form. Otherwise the first matching order fills the customer, number, date part of its payment date and the lines. |
| Ventas.ChosenOrderLines | src/pages/dashboard/ventas.jsx:263-278 | Choosing an order keeps the form's state and paid flag, and copies the order's lines one for one. |
| Ventas.UnknownProductBlocksSave | src/pages/dashboard/ventas.jsx:274 | A copied line whose product is not in the catalogue is priced 0, so the save is refused under that line's price key. |
| Ventas.StatusRequest | src/pages/dashboard/ventas.jsx:234-261 | A state update is requested exactly when a state is chosen and it is not the empty placeholder, and it carries that state. |
| Ventas.PlaceholderSendsNothing | src/pages/dashboard/ventas.jsx:234-261 | Choosing the placeholder sends nothing, like choosing nothing. Each offered state is requested as itself. |
| Ventas.StatusOptionsDistinct | src/pages/dashboard/ventas.jsx:238-242 | The three offered states are distinct, and each one is requested as itself. |
| Ventas.Filter | src/pages/dashboard/ventas.jsx:92-106 | The list keeps exactly the sales whose customer matches the search and whose date is in range, when both ends are set. |
| Ventas.FilterWithoutRange | src/pages/dashboard/ventas.jsx:92-106 | With an end of the range unset, only the search applies. The range can only shorten the list. |
| Ventas.Shown | src/pages/dashboard/ventas.jsx:280-282 | A page holds at most five sales, each listed by the filter. |
| Pedidos.Edit | src/pages/dashboard/pedidos.jsx:131-141 | The edit form keeps the order's customer, number, state and paid flag. Each date is cut before its first 'T'. A missing payment date becomes "". Missing lines become []. |
| Pedidos.EditKeepsPlainDates | src/pages/dashboard/pedidos.jsx:136-137 | Dates without a 'T' are kept whole. |
| Pedidos.SetPagado | src/pages/dashboard/pedidos.jsx:345-352 | Ticking sets paid and keeps the payment date. Unticking clears it. Nothing else changes. |
| Pedidos.PagadoToggleLosesDate | src/pages/dashboard/pedidos.jsx:345-352 | Unticking then ticking loses the payment date. Ticking twice is ticking once. |
| Pedidos.AddLine | src/pages/dashboard/pedidos.jsx:360-365 | Adding puts one empty line at the end and keeps everything else. |
| Pedidos.RemoveLine | src/pages/dashboard/pedidos.jsx:367-371 | Removing index i drops exactly line i. An index past the end changes nothing. |
| Pedidos.RemoveAddedLine | src/pages/dashboard/pedidos.jsx:360-371 | Removing the line just added restores the form. |
| Pedidos.EditLine | src/pages/dashboard/pedidos.jsx:354-358 | Editing changes only that line's field. |
| Pedidos.PayloadOf | src/pages/dashboard/pedidos.jsx:185-196 | The payload copies the customer, number, delivery date, state, paid flag and each line's product and quantity. It carries the payment date exactly when paid with a date. |
| Pedidos.SaveAsWritten | src/pages/dashboard/pedidos.jsx:143-242 | As written: the early gate stops an incomplete order. Any failing field check then aborts on the undeclared map, so no message is ever shown. An order that reaches the request sends `PayloadOf`. |
| Pedidos.MissingNumberAborts | src/pages/dashboard/pedidos.jsx:159-178 | As written, an order missing only its number aborts instead of showing a message. |
| Pedidos.RowRulesMeaning | src/pages/dashboard/pedidos.jsx:171-178 | A line passes exactly when its product and quantity are truthy. |
| Pedidos.Validate | src/pages/dashboard/pedidos.jsx:159-178 | Each field key is present exactly when its field is falsy or empty. The corrected map is empty exactly when nothing would reach the undeclared map as written. |
| Pedidos.LineErrors | src/pages/dashboard/pedidos.jsx:171-178 | Line i's product and quantity keys are present exactly when that field is falsy. |
| Pedidos.Save | src/pages/dashboard/pedidos.jsx:143-242 | Corrected: the gate stops an incomplete order, failing checks show their messages and never abort, and a clean order sends `PayloadOf`. |
| Pedidos.SaveAgreesWhereWrittenSubmits | src/pages/dashboard/pedidos.jsx:143-242 | The corrected save sends exactly the orders the written one sends, with the same payload. It shows messages exactly where the written one aborts. |
| Pedidos.MissingNumberReported | src/pages/dashboard/pedidos.jsx:159-178 | Corrected, the order missing its number is refused with the order-number message. |
| Pedidos.SubmittedOrderComplete | src/pages/dashboard/pedidos.jsx:143-196 | A sent order has a number, a state and lines, and every line is filled. An unpaid order carries no payment date. |
| Pedidos.TotalSold | src/pages/dashboard/pedidos.jsx:324-343 | A failed fetch, or a day with no paid order, gives 0. Non-negative quantities give a non-negative total. |
| Pedidos.SoldOnBounds | src/pages/dashboard/pedidos.jsx:324-343 | The day's sum is 0 when no order falls on it, and non-negative for non-negative quantities. |
| Pedidos.SumNonNegative | src/pages/dashboard/pedidos.jsx:332-334 | A sum of non-negative quantities is non-negative. |
| Pedidos.SoldOnAppend | src/pages/dashboard/pedidos.jsx:324-343 | The day's total over joined order lists is the sum of their totals. |
| Pedidos.SoldOnSingle | src/pages/dashboard/pedidos.jsx:324-343 | One order adds its quantities exactly when it falls on the day. |
| Pedidos.Shown | src/pages/dashboard/pedidos.jsx:388-390 | A page holds at most five orders, each from the list and matching the search on its customer name. |
| ProductoTerminado.NombreError | src/pages/dashboard/productoterminado.jsx:157-161 | The name passes exactly when it is three or more characters of the ñ letter class. An empty name gets the required message and any other failure the pattern message. |
| ProductoTerminado.DescripcionError | src/pages/dashboard/productoterminado.jsx:164-168 | The description passes exactly when it is five or more characters of the same class. The messages are split the same way. |
| ProductoTerminado.PrecioError | src/pages/dashboard/productoterminado.jsx:171-175 | The price passes exactly when it is truthy and its text is all digits. Typed text passes exactly when it is non-empty digits. |
| ProductoTerminado.Validate | src/pages/dashboard/productoterminado.jsx:153-178 | Each key is present exactly when its field fails, with that field's message. The product is clean exactly when all three pass. |
| ProductoTerminado.DigitNameRejected | src/pages/dashboard/productoterminado.jsx:159 | "Harina2" gets the pattern message. |
| ProductoTerminado.Save | src/pages/dashboard/productoterminado.jsx:179-208 | A product is sent as it stands exactly when it validates. |
| ProductoTerminado.RulesMeaning | src/pages/dashboard/productoterminado.jsx:216-225 | A production row passes exactly when its product is chosen and its quantity is truthy and all digits. |
| ProductoTerminado.ValidateProduction | src/pages/dashboard/productoterminado.jsx:213-229 | Production is clean exactly when every row passes. Row i's keys are present exactly when its product or quantity fails. |
| ProductoTerminado.QuantityMessage | src/pages/dashboard/productoterminado.jsx:220-224 | A falsy quantity gets the required message. A truthy non-digit one gets the numbers-only message. |
| ProductoTerminado.EditProduction | src/pages/dashboard/productoterminado.jsx:266-271 | Editing changes only that row. The quantity is stored as `Number(value)`. The product is stored as the chosen option's value, held as text. |
| ProductoTerminado.ClearedQuantityRequired | src/pages/dashboard/productoterminado.jsx:269 | Clearing a quantity stores 0, which then fails as required. |
| ProductoTerminado.DigitQuantityAccepted | src/pages/dashboard/productoterminado.jsx:269 | A positive quantity typed as digits is stored as a number that passes the digits test. |
| ProductoTerminado.ExponentQuantityAccepted | src/pages/dashboard/productoterminado.jsx:216-271 | A quantity typed as "1e3" is stored as 1000, and that row's quantity key is absent from the validator's result. |
| ProductoTerminado.AddRow | src/pages/dashboard/productoterminado.jsx:274-276 | Adding appends one empty row. |
| ProductoTerminado.RemoveRow | src/pages/dashboard/productoterminado.jsx:278-282 | Removing index i drops exactly row i. An index past the end changes nothing. |
| ProductoTerminado.RemoveAddedRow | src/pages/dashboard/productoterminado.jsx:274-282 | Removing the row just added restores the rows. |
| ProductoTerminado.NewProductionNotReady | src/pages/dashboard/productoterminado.jsx:96-99 | A new production has one empty row and does not validate. |
| ProductoTerminado.ProductionPayload | src/pages/dashboard/productoterminado.jsx:238-241 | Each row is sent with its product and `Number` of its quantity; `ProductoTerminado.NumericRowsUnchanged` shows rows already holding numbers are sent as they are. |
| ProductoTerminado.NumericRowsUnchanged | src/pages/dashboard/productoterminado.jsx:238-241 | Rows whose quantities are already numbers are sent unchanged. |
| ProductoTerminado.SaveProduction | src/pages/dashboard/productoterminado.jsx:232-256 | Production is sent exactly when every row passes, and what is sent is the payload. |
| ProductoTerminado.SubmittedQuantitiesWhole | src/pages/dashboard/productoterminado.jsx:232-256 | Every sent quantity is a whole, non-negative number, and positive when the row held a number. |
| ProductoTerminado.Shown | src/pages/dashboard/productoterminado.jsx:293-295 | A page holds at most three products. |
| Proveedores.NameError | src/pages/dashboard/proveedores.jsx:189-198 | A name passes exactly when its trimmed text has four characters or more and all of it is in the ñ letter class. Blank gets the required message, then short the length message, then the letters message. |
| Proveedores.ContactoError | src/pages/dashboard/proveedores.jsx:201-206 | The contact passes exactly when it is seven or more ASCII digits and nothing else. Blank gets the required message and any other failure the pattern message. |
| Proveedores.Validate | src/pages/dashboard/proveedores.jsx:184-223 | Each key is present exactly when its field fails, with that field's message. The supplier is clean exactly when all three pass. |
| Proveedores.Save | src/pages/dashboard/proveedores.jsx:157-182 | A supplier is sent as it stands exactly when it validates. |
| Proveedores.NewProveedorRefused | src/pages/dashboard/proveedores.jsx:36-40 | The empty form gets the three required messages. |
| Proveedores.DigitNameRejected | src/pages/dashboard/proveedores.jsx:195 | A digit anywhere in a name refuses it. |
| Proveedores.AcceptedNameHasTwoLetters | src/pages/dashboard/proveedores.jsx:192-195 | An accepted name has at least two non-blank characters. |
| Proveedores.TwoLetterNameAccepted | src/pages/dashboard/proveedores.jsx:189-198 | That bound is tight: "a  b" is accepted, although its message asks for four letters. |
| Proveedores.PaddedContactRejected | src/pages/dashboard/proveedores.jsx:201-206 | Seven digits or more pass; the same digits after one space fail the pattern, which sees the untrimmed text. |
| Proveedores.Shown | src/pages/dashboard/proveedores.jsx:241-243 | A page holds at most three suppliers, each from the list and matching the search. |
| Usuarios.NombreError | src/pages/dashboard/usuarios.jsx:178-180 | The name passes exactly when it has three characters or more. |
| Usuarios.EmailError | src/pages/dashboard/usuarios.jsx:182-184 | The address passes exactly when the e-mail pattern accepts it. |
| Usuarios.PasswordError | src/pages/dashboard/usuarios.jsx:186-188 | The password passes exactly when it has five characters or more. |
| Usuarios.RolError | src/pages/dashboard/usuarios.jsx:190-192 | The role passes exactly when it is truthy. |
| Usuarios.Validate | src/pages/dashboard/usuarios.jsx:175-197 | Each of the four keys is present exactly when its field fails, with its message. The user is clean exactly when all four pass. |
| Usuarios.Save | src/pages/dashboard/usuarios.jsx:139-173 | A user is sent as they stand exactly when the form validates. |
| Usuarios.NameWithDigitAccepted | src/pages/dashboard/usuarios.jsx:178-180 | "a1!" passes, although the message forbids digits and symbols. |
| Usuarios.NewUserRefused | src/pages/dashboard/usuarios.jsx:97-107 | A new user's form fails on all four fields. |
| Usuarios.ChooseRole | src/pages/dashboard/usuarios.jsx:347-350 | Choosing a role stores its id as text and keeps the other fields. |
| Usuarios.RoleLabel | src/pages/dashboard/usuarios.jsx:273 | The label is "Rol no encontrado" when no role's id is `===` the user's. When the first such role has a name, the label is that name. Any other label is the name of such a role. |
| Usuarios.FirstMatchingRoleShown | src/pages/dashboard/usuarios.jsx:273 | When role i is the first whose id is `===` the user's and its name is not empty, the column shows that name. |
| Usuarios.ChosenRoleNotFound | src/pages/dashboard/usuarios.jsx:273 | With numeric role ids, a role chosen in the form is never found and shows "Rol no encontrado". |
| Usuarios.Shown | src/pages/dashboard/usuarios.jsx:212-214 | A page holds at most three users, each from the list and matching the search. |
| Clientes.NombreError | src/pages/dashboard/clientes.jsx:201-203 | The name passes exactly when it has three characters or more. |
| Clientes.ContactoError | src/pages/dashboard/clientes.jsx:205-207 | The contact passes exactly when it has seven characters or more. |
| Clientes.Validate | src/pages/dashboard/clientes.jsx:198-211 | Each key is present exactly when its field is too short, with its message. The customer is clean exactly when both pass. |
| Clientes.Save | src/pages/dashboard/clientes.jsx:147-176 | A customer is sent as it stands exactly when it validates. |
| Clientes.LettersAcceptedAsContact | src/pages/dashboard/clientes.jsx:205-207 | Any seven characters pass: "abcdefg" is a valid contact. |
| Clientes.Filtered | src/pages/dashboard/clientes.jsx:63-67 | Exactly the customers whose lower-cased name contains the lower-cased search are kept. |
| Clientes.Page | src/pages/dashboard/clientes.jsx:192-194 | Page p is the slice from (p-1)·3 to p·3 of the filtered list, clipped to its length. |
| Clientes.PageButtons | src/pages/dashboard/clientes.jsx:274 | The buttons are 1, 2, … up to the ceiling of the match count divided by three. |
| Clientes.EveryMatchHasAPage | src/pages/dashboard/clientes.jsx:192-194 | Matching customer i is entry i mod 3 of page ⌊i/3⌋+1, and that page has a button. |
| Clientes.NoCustomerPastLastButton | src/pages/dashboard/clientes.jsx:274 | A page past the last button is empty. |
| Insumos.NombreError | src/pages/dashboard/insumos.jsx:154-158 | The name passes exactly when it is not blank and all of it is in the ü letter class. Blank gets the required message. |
| Insumos.CategoriaError | src/pages/dashboard/insumos.jsx:160-162 | The category passes exactly when it is truthy. |
| Insumos.Validate | src/pages/dashboard/insumos.jsx:149-167 | Each key is present exactly when its field fails, with its message. The supply is clean exactly when both pass. |
| Insumos.Save | src/pages/dashboard/insumos.jsx:149-191 | A supply is sent as it stands exactly when it validates. A refused save shows the new messages; a sent one leaves the shown messages as they were. |
| Insumos.Create | src/pages/dashboard/insumos.jsx:87-95 | A new form has an empty name, stock 0 and no category. The shown messages are not reset. |
| Insumos.ChangeNombre | src/pages/dashboard/insumos.jsx:214-217 | Typing a name stores it, blanks the name's message and keeps every other message. |
| Insumos.ChooseCategoria | src/pages/dashboard/insumos.jsx:324-328 | Choosing a category stores it and leaves the shown messages as they were. |
| Insumos.NewInsumoRefused | src/pages/dashboard/insumos.jsx:87-95 | A new supply fails on both name and category. |
| Insumos.StaleCategoryMessageReachesNewForm | src/pages/dashboard/insumos.jsx:87-217 | A save refused for a missing category, then a retyped name and a chosen category, then a successful save: the next new form opens still showing the category message, while the name's message was blanked by typing. |
| Insumos.EnyeRefusedUmlautAccepted | src/pages/dashboard/insumos.jsx:151-158 | "Piña" is refused and "Pingüino" accepted, since the class has ü but not ñ. |
| Insumos.Filtered | src/pages/dashboard/insumos.jsx:65-70 | Exactly the supplies whose name matches the search are kept. |
| Insumos.Page | src/pages/dashboard/insumos.jsx:229-231 | Page p is the slice from (p-1)·6 to p·6 of the filtered list, clipped. |
| Insumos.FilterKeepsOrder | src/pages/dashboard/insumos.jsx:65-70 | Filtering keeps list order: filtering joined lists gives the filtered lists joined. |
| CategoriaInsumos.NombreError | src/pages/dashboard/categoriainsumos.jsx:140-144 | The name passes exactly when it is not blank and all of it is in the ü letter class. Blank gets the required message. |
| CategoriaInsumos.DescripcionError | src/pages/dashboard/categoriainsumos.jsx:146-148 | The description passes exactly when it is not blank after trimming. |
| CategoriaInsumos.Validate | src/pages/dashboard/categoriainsumos.jsx:135-153 | Each key is present exactly when its field fails, with its message. The category is clean exactly when both pass. |
| CategoriaInsumos.Save | src/pages/dashboard/categoriainsumos.jsx:135-175 | A category is sent as it stands exactly when it validates. Sending leaves the shown messages. |
| CategoriaInsumos.BlankDescriptionRefused | src/pages/dashboard/categoriainsumos.jsx:146-148 | A description of spaces only is refused. |
| CategoriaInsumos.Filtered | src/pages/dashboard/categoriainsumos.jsx:51-56 | Exactly the categories whose name matches the search are kept. |
| CategoriaInsumos.EmptySearchListsAll | src/pages/dashboard/categoriainsumos.jsx:51-56 | An empty search lists every category. |
| CategoriaInsumos.FilterKeepsOrder | src/pages/dashboard/categoriainsumos.jsx:51-56 | Filtering keeps list order. |
| CategoriaInsumos.Page | src/pages/dashboard/categoriainsumos.jsx:215-217 | Page p is the slice from (p-1)·6 to p·6 of the filtered list, clipped. |
| CategoriaInsumos.PageButtons | src/pages/dashboard/categoriainsumos.jsx:219-222 | The buttons are 1 up to the ceiling of the match count divided by six. |
| CategoriaInsumos.ButtonsCoverFilteredList | src/pages/dashboard/categoriainsumos.jsx:215-222 | The pages of all the buttons, joined in order, are exactly the filtered list. |
| SignIn.EmailError | src/pages/auth/sign-in.jsx:31-37 | The address passes exactly when it has four characters or more including an '@'. Empty gets the required message and any other failure the invalid message. |
| SignIn.PasswordError | src/pages/auth/sign-in.jsx:39-43 | The password passes exactly when it has four characters or more. |
| SignIn.PermissionNames | src/pages/auth/sign-in.jsx:110 | The session permissions are the role's permission names, one per permission and in order; `SignIn.SessionUserAndPermissions` shows these are what a successful attempt stores. |
| SignIn.Attempt | src/pages/auth/sign-in.jsx:22-136 | Input is rejected, with both shown messages, exactly when a local check fails. A session starts only after a 200 login, for a fetched user with exactly the entered address. |
| SignIn.RejectedInputSendsNothing | src/pages/auth/sign-in.jsx:47-49 | When a local check fails, the outcome does not depend on anything the backend would answer. |
| SignIn.SessionUserAndPermissions | src/pages/auth/sign-in.jsx:86-110 | The session user is the first fetched user with the address. The permissions are that user's role's names, in order. |
| SignIn.KnownUserLogsIn | src/pages/auth/sign-in.jsx:73-110 | Valid input, a 200 login, a fetched user with the address and an answering role always start a session. |
| SignIn.UnknownAddressRejected | src/pages/auth/sign-in.jsx:86-90 | When no fetched user has the address, the attempt is rejected even after a 200 login. |
| SignIn.LooseEmailCheck | src/pages/auth/sign-in.jsx:34 | "@@@@" passes the local address check. |
| Forms.FieldMap | src/pages/dashboard/usuarios.jsx:175-197 | A field's key is in the error object exactly when its check failed, with that check's message, and no other key appears. |
| Forms.FieldMapEmpty | src/pages/dashboard/usuarios.jsx:196 | The error object is empty exactly when every check passed: the `Object.keys(...).length === 0` result. |
| Forms.RequiredError | src/pages/dashboard/fichatecnica.jsx:168-169 | A required text gets its message exactly when it is empty. |
| Forms.MinLengthError | src/pages/dashboard/usuarios.jsx:178-180 | A length-checked text gets its message exactly when it is empty or shorter than the bound. |
| Forms.RowKeyInjective | src/pages/dashboard/compras.jsx:131-137 | Distinct prefix and index pairs give distinct keys like `cantidad_3`, so one row's message never overwrites another's. |
| Forms.RowKeyNotField | src/pages/dashboard/compras.jsx:114-137 | A row key never collides with a field key. |
| Forms.ApplyRules | src/pages/dashboard/compras.jsx:131-138 | One row's tests add exactly the failing tests' keys with their messages, and keep every earlier message. |
| Forms.ForEachRow | src/pages/dashboard/compras.jsx:130-139 | After the loop over rows, each row key is present exactly when that row's test failed, and the field messages are kept. |
| Forms.ForEachRowAddsNothing | src/pages/dashboard/compras.jsx:130-139 | The loop adds no message exactly when every row passes. |
| Forms.FieldKeyUntouched | src/pages/dashboard/compras.jsx:130-139 | The row loop never adds or removes a field key. |
| Forms.Validator | src/pages/dashboard/compras.jsx:114-143 | Field checks followed by row checks: each key present exactly when its test failed, and empty exactly when all passed. |
| Listing.Keep | src/pages/dashboard/clientes.jsx:63-65 | `filter` keeps exactly the elements passing the test, from the input. |
| Listing.KeepAppend | src/pages/dashboard/clientes.jsx:63-65 | `filter` keeps order: filtering joined lists gives the filtered lists joined. |
| Listing.KeepAllPass | src/pages/dashboard/clientes.jsx:63-65 | When every element passes, `filter` returns the list itself. |
| Listing.KeepIdempotent | src/pages/dashboard/clientes.jsx:63-65 | Filtering twice by the same test equals filtering once. |
| Listing.FirstIndex | src/pages/auth/sign-in.jsx:86 | The index of the first element passing the test, or the length when there is none. |
| Listing.Find | src/pages/auth/sign-in.jsx:86 | `find` returns nothing exactly when no element passes. Otherwise it returns the first passing element. |
| Listing.Search | src/pages/dashboard/clientes.jsx:63-65 | The search keeps exactly the elements whose lower-cased name contains the lower-cased search text. |
| Listing.SearchEmptyKeepsAll | src/pages/dashboard/clientes.jsx:63-65 | An empty search keeps every element. |
| Listing.PageItems | src/pages/dashboard/clientes.jsx:192-194 | Page p of a list is its (p-1)·size to p·size slice, clipped, and never longer than the page size. |
| Listing.PageCount | src/pages/dashboard/clientes.jsx:274 | The button count is the least c with n ≤ c·size: `Math.ceil(n / size)`. |
| Listing.PageNumbers | src/pages/dashboard/roles.jsx:234-236 | The buttons are 1, 2, …, `Math.ceil(n / size)`; `Listing.PagesCoverList` shows their pages, joined in order, give back the whole list. |
| Listing.ItemOnItsPage | src/pages/dashboard/clientes.jsx:192-194 | Item i is entry i mod size of page ⌊i/size⌋+1, and that page has a button. |
| Listing.PagePastEndEmpty | src/pages/dashboard/clientes.jsx:192-194 | A page past the last button is empty. |
| Listing.PagesCoverList | src/pages/dashboard/roles.jsx:229-236 | The pages of all the buttons, joined in order, are the whole list. |
| LineItems.RemoveAt | src/pages/dashboard/compras.jsx:222-226 | `splice(index, 1)` drops exactly entry index when it is in range, changes nothing past the end, and counts a negative index from the end. |
| LineItems.RemoveUndoesAppend | src/pages/dashboard/compras.jsx:215-226 | Removing the last appended entry restores the list. |
| LineItems.RemoveKeepsOthers | src/pages/dashboard/compras.jsx:222-226 | After a removal, earlier entries keep their place and later ones move up by one. |
| LineItems.NegativeIndexFromEnd | src/pages/dashboard/compras.jsx:222-226 | `splice(-k, 1)` drops entry length-k when that is in range, and the first entry when it is not. |
| LineItems.Update | src/pages/dashboard/compras.jsx:199-213 | Editing entry i changes only entry i. |
| LineItems.DistinctCountDetectsRepeat | src/pages/dashboard/compras.jsx:155-157 | The `new Set(ids).size !== ids.length` test fires exactly when some id repeats. |
| LineItems.RepeatIgnoresOrder | src/pages/dashboard/compras.jsx:155-157 | Whether a list has a repeat does not depend on its order. |
| JsString.Trim | src/pages/dashboard/roles.jsx:148 | `trim()` never lengthens its input, and the result neither starts nor ends with white space. |
| JsString.TrimIsInfix | src/pages/dashboard/proveedores.jsx:192 | The trimmed text is a piece of the input with only white space around it. |
| JsString.TrimEmptyIffAllSpaces | src/pages/dashboard/roles.jsx:148 | `!s.trim()` holds exactly when s is all white space. |
| JsString.TrimOfTrimmed | src/pages/dashboard/proveedores.jsx:192 | Trimming text with no white space at either end leaves it unchanged. |
| JsString.ToLower | src/pages/dashboard/clientes.jsx:64 | `toLowerCase` keeps length and maps each character. |
| JsString.ToLowerIdempotent | src/pages/dashboard/clientes.jsx:64 | Lower-casing twice is lower-casing once. |
| JsString.BeforeT | src/pages/dashboard/pedidos.jsx:136 | `split('T')[0]` is the prefix before the first 'T', or the whole text when there is none. |
| JsString.RemoveFirstFailing | src/pages/dashboard/compras.jsx:204-206 | A non-global `replace` deletes only the first unwanted character, and leaves clean text unchanged. |
| JsValue.IndexOf | src/pages/dashboard/fichatecnica.jsx:235 | `indexOf` is -1 exactly when no entry is `===` the value. Otherwise it is the first such entry's index. |
| JsValue.DigitStringToNumber | src/pages/dashboard/productoterminado.jsx:240 | `Number` of a non-empty digit string is its decimal value. |
| JsValue.ExponentStringToNumber | src/pages/dashboard/productoterminado.jsx:269 | `Number` of digits, an 'e' and digits is the first number scaled by ten to the power of the second. |
| JsValue.LiteralWithExponent | src/pages/dashboard/productoterminado.jsx:269 | The literal reader splits digits, 'e', digits at the 'e' and scales the mantissa by the exponent. |
| JsValue.NotALiteral | src/pages/dashboard/compras.jsx:137 | Text starting and ending with a digit that is not a literal converts to `NaN`. |
| JsValue.ThousandInExponentForm | src/pages/dashboard/productoterminado.jsx:269 | `Number("1e3")` is 1000. |
| JsValue.DatePart | src/pages/dashboard/ventas.jsx:270 | A missing or empty payment date gives "". Any other gives its prefix before the first 'T'. |
| NamePatterns.DigitInNoLetterClass | src/pages/dashboard/proveedores.jsx:195 | A digit anywhere fails both letter classes. |
| NamePatterns.BlankThenClassError | src/pages/dashboard/insumos.jsx:154-158 | The blank test runs first, then the class test. It passes exactly when the text is not blank and wholly in the class. |
| NamePatterns.ClassesDiffer | src/pages/dashboard/insumos.jsx:151 | The two letter classes differ: ñ is in only one, ü in only the other. |
| NamePatterns.LastDot | src/pages/dashboard/usuarios.jsx:182 | The position of the last '.', or -1 when there is none. |
| NamePatterns.IsEmailIffRegexAccepts | src/pages/dashboard/usuarios.jsx:182 | The executable e-mail test agrees with the regular expression's meaning: some split into local part, '@', domain, '.' and two or more letters. |

## Left out

- HTTP requests, toasts, confirmation dialogs and React's asynchronous state. Backend answers are parameters (`SignIn.Backend`, fetched lists), and each handler returns what it would send.
- The delete handlers on every page: they only send a request after a confirmation dialog.
- `handleViewDetails` on every page, the details dialogs, and the `split('T')` date display in lists: presentation only.
- Dates are opaque text (forms) or whole numbers (the sales range filter). `new Date`, `toISOString` and an invalid date throwing are not modelled.
- `parseInt` and `parseFloat` in payloads: the model sends the form's values as they stand. The validators already decide what may be sent.
- Lower-casing covers ASCII and Latin-1 letters only. Other Unicode case mapping is not modelled.
- Server error bodies, such as the backend's own messages shown by the technical-sheet save (fichatecnica.jsx:210-215).
- The dashboard home page (home.jsx): it only lays out cards.
- A contact fetched from the backend as a number would make `.length` undefined in the customers check. The model types contacts as text.
- The users details dialog's role lookup (usuarios.jsx:381) is the same lookup as the list column, without the fallback.
- Ventas.Filter: the date range compares days as whole numbers, not `Date` objects.
- JsValue.StringToNumber: `Infinity`, hexadecimal, octal and binary literals, and floating-point rounding are not modelled. Numbers are exact reals, so a literal reads as its exact value.
- ProductoTerminado.EditProduction: the stored quantity is `JsValue.StringToNumber`'s reading, so the same limits apply (`"Infinity"` and `"0x10"` are `NaN` here). The chosen product is held as text (`Str`), while the select hands over `producto.id_producto` as fetched, a number whenever the backend sends one; a numeric id is therefore held and sent as text in the model.
- Pedidos.Edit, Pedidos.EditLine: lines are values here. In the program, `handleEdit` (pedidos.jsx:131-141) keeps the listed order's `detallesPedido` array, and `handleDetalleChange` (pedidos.jsx:354-358) copies only the array and writes `detalles[index][name] = value` into line objects the `pedidos` list still holds. So an edited line changes the listed order even when the dialog is cancelled: the details dialog shows the new value and the next edit starts from it. The model does not promise anything about the list after an edit.
- FichaTecnica.EditRow: the same sharing applies. `handleEdit` (fichatecnica.jsx:116-121) opens the listed sheet object itself, and `handleDetalleChange` (fichatecnica.jsx:224-230) writes into its row objects, so a cancelled edit still changes the listed sheet. Opening a stored sheet for editing is otherwise a plain copy and is not a separate member.
- String lengths count characters. JavaScript's `.length` counts UTF-16 code units, so a character outside the Basic Multilingual Plane (an emoji, say) counts twice there and once here. This affects every length check: Usuarios.NombreError and PasswordError, Clientes.NombreError and ContactoError, Proveedores.NameError, SignIn.EmailError and PasswordError.
- Pedidos.TotalSold: the day's figure is a sum of whole quantities. The source's string-versus-number behaviour of `+` on fetched data is not modelled.

## Findings

| source | as written | input that shows it | evidently intended | confidence | as-written member | corrected member |
|---|---|---|---|---|---|---|
| src/pages/dashboard/compras.jsx:133-138 | A line fails only when `quantity <= 0` or `price <= 0`. `NaN <= 0` is false, so a non-number passes. | Typing the price "1e-5": the sanitiser at line 206 drops only the 'e', leaving "1-5", which converts to `NaN`; the purchase passes and is sent. | Accept only positive numbers. | not executed | Compras.ExponentPriceAcceptedAsWritten | Compras.ValidLinesArePositive |
| src/pages/dashboard/pedidos.jsx:159-178 | The checks write into `newErrors`, which is never declared, so the first failing check throws and the save ends without a message. | An order with customer, date and lines but no order number. | Collect the messages and show them. | not executed | Pedidos.MissingNumberAborts | Pedidos.MissingNumberReported |
