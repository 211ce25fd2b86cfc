# crud-exp-criativa: users CRUD, modelled in Dafny

This project models the two pieces of logic in the users CRUD application.

- **The Express server** (`backend/app.js`):
  - `validateUser` is the server's rule checker.
  - Five route handlers cover the `usuarios` table: list all, get one, create, update and delete.
- **The React form** (`frontend/src/components/UserForm.jsx`), used to create and edit a user:
  - its state (`formData` and `errors`);
  - the input handler and the client-side rules of `validateForm`;
  - the payload `handleSubmit` sends;
  - the notification text after a failed request.

The model is split across five modules:

- `Js` (`js.dfy`) covers the JavaScript semantics both sides depend on:
  - JSON-like values and truthiness;
  - the whitespace class shared by `\s` and `trim()`;
  - `String(v)` and `replace(/\D/g, '')`.
- `Validation` (`validation.dfy`) is `validateUser`. The email regular expression is given as a predicate read off the pattern (`RegexMatch`). It is proved equal to a counting characterisation: exactly one `@`, no whitespace, a non-empty local part, and a domain with an inner `.`.
- `Handlers` (`handlers.dfy`) models the table as the class `UsuariosTable`:
  - rows by id, the ids in primary-key order, and the next AUTO_INCREMENT value;
  - one method per route. Each method returns the status and body the route sends, and changes the table only where the route writes.
  - The outcome of the database driver is the parameter `fault`.
- `UserFormModel` (`user_form.dfy`) models the form as the class `UserForm`, with `formData` and `errors` as map fields. The payload filter and the error-message choice are functions.
- `EndToEnd` (`end_to_end.dfy`) connects the two sides. The form has no `email` field, so every payload it submits is refused by the server with "Email é obrigatório" and status 400. The form then shows "Erro no servidor: 400", because a refusal body carries `erro`/`errors` and never `message`/`error`.

Three behaviours of the code are worth stating on their own:

- **Blank names.** A whitespace-only `nome` is not refused: the server only tests truthiness and never trims (`WhitespaceNomeAccepted`). Such a record is stored.
- **Message language.** The messages are the code's Portuguese ones.
- **List order.** The select has no `ORDER BY`; the model lists rows in ascending id, the primary-key order.

## Model

| member | source | states |
|---|---|---|
| Validation.ValidateUser | backend/app.js:13-21 | the list is empty iff `nome` and `email` are truthy and `email` matches the pattern. Each message appears iff its condition holds: falsy `nome`, falsy `email`, truthy but non-matching `email`. The two email messages exclude each other, so there are at most two entries. No message repeats. The `nome` message comes first. No other message appears |
| Validation.EmailShapeIsRegex | backend/app.js:17 | the counting characterisation accepts exactly the strings the regular expression accepts: one `@`, no whitespace, a non-empty local part, and a domain with a `.` that has a character on each side |
| Validation.EmailExamples | backend/app.js:17 | "a@b.c" matches; "bad", "a@b" and "a b@c.d" do not |
| Validation.NonStringEmailInvalid | backend/app.js:17 | a truthy number or boolean `email` is stringified without an `@`, so it always earns "Email inválido" |
| Validation.WhitespaceNomeAccepted | backend/app.js:15 | any non-empty string `nome`, a whitespace-only one included, earns no name message, because nothing trims it. The record is then accepted iff its `email` is truthy and matches the pattern |
| Validation.SpaceNomeExample | backend/app.js:13-21 | `{nome: " ", email: "a@b.c"}` earns no message |
| Validation.AnaIsValid | backend/app.js:13-21 | `{nome: "Ana", email: "ana@x.com"}` earns no message |
| Validation.EmptyNameAndBadEmail | backend/app.js:15-19 | `{nome: "", email: "bad"}` earns exactly the name message, then the invalid-email message |
| Js.ArrayToStr | backend/app.js:17 | `String([])` is ''; a one-element array converts like its element, or to '' when the element is null or undefined |
| Validation.ArrayEmailTested | backend/app.js:16-19 | with a non-empty string `nome`: an array `email` is truthy even when empty. A one-string array passes iff its string matches the pattern; the empty array earns exactly "Email inválido" |
| Validation.ArrayEmailExample | backend/app.js:13-21 | `{nome: "A", email: ["a@b.c"]}` earns no message |
| Js.ScalarStringsHaveNoAt | backend/app.js:17 | `String(v)` of undefined, null, a boolean or a number contains no `@` and no whitespace |
| Handlers.Listing | backend/app.js:25-30 | the listing has one row per listed id, each row carrying that id's columns |
| Handlers.UsuariosTable.ListAll | backend/app.js:24-33 | a failed select gives 500 with its message. Otherwise 200 with every stored row exactly once, columns as stored, in ascending id |
| Handlers.UsuariosTable.GetById | backend/app.js:36-48 | a failed select gives 500; an absent id gives 404 "Usuário não encontrado"; otherwise 200 with that row |
| Handlers.UsuariosTable.Post | backend/app.js:51-70 | an invalid record gives 400 with its messages and leaves the table untouched; a failed insert gives 500 and leaves it untouched. Otherwise 201 with the fresh id, which was absent before and now maps to the record, appended to the id order |
| Handlers.UsuariosTable.Put | backend/app.js:73-92 | an invalid record gives 400, a failed update 500, and an absent id (zero affected rows) 404, each leaving the table untouched. Otherwise 200, and only that row changes: the supplied columns are overwritten and the rest kept |
| Handlers.UsuariosTable.Delete | backend/app.js:95-107 | a failed delete gives 500 and an absent id 404, both leaving the table untouched. Otherwise 200, with exactly that row removed and every other row kept |
| Handlers.RemoveKeepsIncreasing | backend/app.js:97 | removing an id from the ascending id order keeps it ascending |
| Handlers.CreateThenGet | backend/app.js:51-70 | after a valid create, getting the returned id gives 200 with the record as sent |
| Handlers.PutThenGet | backend/app.js:73-92 | after a valid update, getting the row gives the supplied columns with their new values and every other column unchanged, and nothing more |
| Handlers.DeleteThenGet | backend/app.js:95-107 | after a delete, getting the id gives 404, deleting it again gives 404, and every other row is kept |
| Handlers.AnaScenario | backend/app.js:51-107 | starting from an empty table: creating Ana gives 201, getting her gives 200 with `nome` "Ana", deleting her gives 200, and getting her again gives 404 |
| Handlers.RefusedScenario | backend/app.js:51-57 | `{nome: "", email: "bad"}` gives 400 with both messages, and the table stays empty |
| UserFormModel.InitialFormData | frontend/src/components/UserForm.jsx:12-18 | the form starts with exactly its five fields, each the empty string |
| UserFormModel.UserForm.constructor | frontend/src/components/UserForm.jsx:12-20 | a new form holds the initial data and no errors |
| UserFormModel.FetchedFormData | frontend/src/components/UserForm.jsx:30-36 | the loaded data has exactly the five form fields and no `email`. Each field is the fetched value when that value is truthy, and '' otherwise |
| UserFormModel.FetchedFormDataShape | frontend/src/components/UserForm.jsx:30-36 | when the fetched `nome`, `genero` and `cpf` are strings whenever they are truthy, the loaded data is a well-formed form |
| UserFormModel.UserForm.LoadUser | frontend/src/components/UserForm.jsx:24-36 | edit mode replaces the form data with the loaded data and keeps the form well-formed |
| UserFormModel.UserForm.HandleChange | frontend/src/components/UserForm.jsx:48-62 | only the named field takes the typed value. If that field's error was showing, only that error is nulled; otherwise the errors are untouched |
| Js.TrimStart | frontend/src/components/UserForm.jsx:67 | `trimStart()` returns a suffix of its input that is empty or starts with a non-whitespace character, and every dropped character is whitespace |
| Js.TrimEnd | frontend/src/components/UserForm.jsx:67 | `trimEnd()` returns a prefix of its input that is empty or ends with a non-whitespace character, and every dropped character is whitespace |
| Js.TrimsToEmpty | frontend/src/components/UserForm.jsx:67 | `!s.trim()` holds exactly when s is blank |
| Js.TrimEmptyIffBlank | frontend/src/components/UserForm.jsx:67 | `trim()` gives '' iff the string is all whitespace. Otherwise the result starts and ends with a non-whitespace character |
| Js.BlankIffAllSpace | frontend/src/components/UserForm.jsx:67 | blank means every position holds whitespace |
| Js.Digits | frontend/src/components/UserForm.jsx:80 | `replace(/\D/g, '')` is no longer than its input and holds only digits |
| Js.DigitsMembership | frontend/src/components/UserForm.jsx:80 | a character survives the digit filter iff it occurs in the input and is a digit |
| Js.DigitsOfDigits | frontend/src/components/UserForm.jsx:80 | the digit filter leaves a digit string unchanged |
| Js.DigitsOfConcat | frontend/src/components/UserForm.jsx:80 | filtering a concatenation is concatenating the filtered parts |
| UserFormModel.BreaksCpfRule | frontend/src/components/UserForm.jsx:78-84 | the CPF condition holds iff the CPF is not blank and its digits are not exactly 11 |
| UserFormModel.CheckFields | frontend/src/components/UserForm.jsx:64-85 | the error object has an entry for each field exactly when that field breaks its rule, with that field's message. The rules are: `nome` blank, `anoNascimento` falsy, `genero` blank, and the CPF rule. There is never an entry for `endereco` or any other key |
| UserFormModel.UserForm.ValidateForm | frontend/src/components/UserForm.jsx:64-88 | the shown errors are those of the form data; the answer is true iff they are empty, iff the data passes all four rules |
| UserFormModel.EmptyErrorsIffPasses | frontend/src/components/UserForm.jsx:86-87 | an error object that shows the data's errors is empty iff the data passes, and never has `email` |
| UserFormModel.ErrorsDetermined | frontend/src/components/UserForm.jsx:64-85 | the error object is determined by the form data |
| UserFormModel.BlankCpfPasses | frontend/src/components/UserForm.jsx:78 | every CPF made only of whitespace, the empty one included, never errors |
| UserFormModel.CpfExample | frontend/src/components/UserForm.jsx:78-84 | "123.456.789-09" passes the CPF rule |
| UserFormModel.Cleaned | frontend/src/components/UserForm.jsx:101-105 | the payload keeps exactly the entries whose value is not null, undefined or '', with their values unchanged. Its keys are a subset of the form's |
| UserFormModel.CleanedIdempotent | frontend/src/components/UserForm.jsx:101-105 | cleaning twice is cleaning once |
| UserFormModel.ValidFormKeepsRequired | frontend/src/components/UserForm.jsx:93-105 | a form that passes submits its `nome`, `anoNascimento` and `genero`, unchanged |
| UserFormModel.UserForm.HandleSubmit | frontend/src/components/UserForm.jsx:90-115 | the submission is blocked iff the form fails its rules. Otherwise the cleaned data goes to update with the route id in edit mode, and to create otherwise |
| UserFormModel.SubmitErrorMessage | frontend/src/components/UserForm.jsx:122-137 | with no response the text is "Erro ao processar requisição". Otherwise it is the body's truthy `message`, else its truthy `error`, else "Erro no servidor: " and the status. It is never empty |
| Js.IntToDecimal | frontend/src/components/UserForm.jsx:133 | `String(n)` is non-empty and starts with '-' iff n is negative. Every other character is a digit. The digits read back as n, or as -n after the '-'. There is no leading zero: a numeral starting with '0' is "0" itself, and the digit after '-' is never '0'. These clauses fix the numeral uniquely |
| Js.DecimalRoundTrip | frontend/src/components/UserForm.jsx:133 | reading the decimal numeral of n back gives n |
| EndToEnd.PayloadIsRefused | backend/app.js:16 | whatever the form holds, its payload has no `email`. `validateUser` therefore answers exactly ["Email é obrigatório"], preceded by "Nome é obrigatório" when the payload has no truthy name |
| EndToEnd.PassingPayloadIsRefused | backend/app.js:15-16 | a form that passes its own rules sends a truthy name, so the server answers exactly ["Email é obrigatório"] |
| EndToEnd.RefusalShowsStatus | frontend/src/components/UserForm.jsx:131-133 | for an `erro` or `errors` body the form shows "Erro no servidor: " followed by the status |
| EndToEnd.FourHundredText | frontend/src/components/UserForm.jsx:133 | the status 400 is written "400" |
| EndToEnd.SubmitToServer | frontend/src/components/UserForm.jsx:90-137 | a submission is blocked iff the form fails its rules. Otherwise the server answers 400 with exactly ["Email é obrigatório"], and the form shows "Erro no servidor: 400". Either way the table is unchanged |

## Left out

- Express, cors and dotenv setup, `app.listen` and console logging: process plumbing with no logic.
- The MySQL driver and the SQL text. The table is a map of rows. A failed statement is the `fault` parameter of each handler. A row keeps only the columns that were supplied; an unset column would read as SQL NULL, and both are falsy.
- Column checks and type coercion by the database: an unknown column, or a value of the wrong type, raises an error that the model does not tell apart from any other `fault`. A value MySQL can convert is converted silently instead: a numeric string such as the form's `anoNascimento` "1990" reads back from an integer column as a number. The model stores every value as sent, so the record that `CreateThenGet` and `PutThenGet` read back equals the one sent only when each value already has its column's type.
- The route id is modelled as an integer. Converting the `:id` path string to a number is left to MySQL and is not modelled.
- Numbers are integers. Floating point, `NaN` and objects nested inside a field value are not represented; arrays are.
- Js.IntToDecimal: the plain decimal numeral matches JavaScript's `String(n)` only for integers of magnitude below 10^21. Larger ones print in exponent form (`String(1e21)` is "1e+21"). Integers above 2^53 also lose precision as doubles. Neither is modelled.
- A request body that carries its own `id` column: MySQL would use it for the insert or the update, and the model leaves that case out.
- Handlers.UsuariosTable.ListAll: the order is the ascending id order. The real order is whatever the storage returns.
- Handlers.UsuariosTable.Put: `affectedRows` is read as the number of matched rows, the driver's default, so 0 means the id is absent.
- UserFormModel.UserForm.LoadUser: it requires the fetched `nome`, `genero` and `cpf` to be strings when they are truthy. `validateForm` calls `trim()` on exactly these three, and on any other value it would throw a TypeError, which is not modelled. `endereco` and `anoNascimento` may hold any value.
- `frontend/src/services/userService.jsx` is not part of this model: its axios calls are reduced to the request each submit action stands for.
- `UserList.jsx`, `UserDetail.jsx`, `Notification.jsx` and `App.jsx` are not part of this model: rendering, routes and timers.
- `setTimeout` navigation, the loading flags and React's batching of state updates are left out. Each handler is modelled as one synchronous step on the component state.
- The `catch` around `fetchUser` and its notification are left out: the load is modelled only when it succeeds.
