# Verified model of the pythonpackages scripts

This project models the six command-line scripts that keep state in
`soundaryaganesh95/pythonpackages`:

- the store inventory manager (`inventory.py`);
- the hospital appointment tracker (`hospital.py`);
- the personal finance tracker (`tracker.py`);
- the library lending table (`library.py`);
- the ATM simulator (`atm.py`);
- the object-oriented teaching examples (`task.py`).

Each script is one module. Its record store or counter table is a Dafny class
whose methods change its fields in place, the way the script's own objects,
dictionaries and module globals do. In the inventory, hospital, library and
ATM modules each state change is also a pure transition function on a value
of the store, whose contract gives every outcome, the new state and what stays
unchanged, and the class method is proved equal to it. The exceptions state
their new state directly in their own contracts: the ATM login
(`Atm.AutomatedTellerMachine.Authenticate`), the finance tracker's
`AddTransaction` and the teaching classes. Lemmas prove:

- that the store's invariant is preserved;
- inverse pairs, such as a borrow followed by a return, or saving followed by
  rebuilding;
- conservation, such as stock value plus earnings in the inventory.

A few conventions hold throughout:

- Money is whole cents. The scripts use floating-point dollars.
- A JSON file is `Store.StoredFile`: missing, empty, corrupted or parsed.
  Loading it gives either the decoded document or the script's default
  skeleton. The finance tracker and the employee directory use that document
  as it is. The inventory and the hospital then rebuild every saved product
  or doctor dictionary through the class constructor, and that rebuild fails
  for every dictionary they save themselves (see "Findings").
- A value the scripts read in a re-prompting `input()` loop is a parameter here.
  That includes a product id, a quantity, a PIN attempt and a "y" answer. For
  finite numbers, the guard that decides whether the script accepts the value
  is modelled exactly. A rejection is returned as an outcome and changes
  nothing.
- Where the script stores or looks up typed text, the model applies the
  script's normalisation on ASCII characters: `Text.Strip` for `str.strip()`,
  `Text.Lower` for `str.lower()` and `Text.TitleCase` for `str.title()`. This
  covers the inventory's product name, the patient's name and disease, and the
  library's titles and "y" answer. The text the hospital and tracker menus
  and the ATM login strip is taken already stripped (see "Left out").
- Timestamps from `datetime.now()` are string parameters.
- The shared module `Store` holds the `Option` type, the stored-file type, JSON
  field values, the decoding of a list of saved records, and the "ids unique
  and below the counter" predicate.

## Model

| member | source | states |
|---|---|---|
| Store.DecodeAll | inventory.py:63 | decoding a saved list succeeds iff every record decodes, and then gives each record's value in order |
| Store.FreshIdKeepsUnique | inventory.py:83-86 | appending the counter's value as a new id and advancing the counter keeps ids unique and below the counter |
| Text.LowerChar | inventory.py:77 | an upper-case ASCII letter becomes its lower-case partner, 32 code points up, and any other character is kept |
| Text.UpperChar | library.py:30 | a lower-case ASCII letter becomes its upper-case partner, 32 code points down, and any other character is kept |
| Text.Lower | inventory.py:77 | lower-casing keeps the length, replaces each upper-case ASCII letter by its own lower-case partner and keeps every other character |
| Text.LowerMatch | inventory.py:77 | two strings lower-case alike iff they have the same length and agree position by position up to the case of ASCII letters |
| Text.StripStartFacts | inventory.py:215 | removing leading whitespace leaves a suffix that does not start with whitespace, all dropped characters being whitespace |
| Text.StripEndFacts | inventory.py:215 | removing trailing whitespace leaves a prefix that does not end with whitespace, all dropped characters being whitespace |
| Text.StripSlice | inventory.py:215 | the strip of a string is a slice of it with only whitespace around it and no whitespace at either end |
| Text.StripKeeps | library.py:83 | a string with no whitespace at either end is its own strip |
| Text.TitleCaseFacts | library.py:30 | title casing keeps the length and which positions hold letters; the character at a word start becomes its own upper case, any character after a letter its own lower case, and a non-letter is kept |
| Text.TitleCaseWord | library.py:30 | a letter followed by lower-case letters title-cases to that letter in upper case followed by the rest unchanged |
| Text.TitleCaseIdempotent | library.py:30 | title casing a title-cased string changes nothing |
| Text.TitleCaseSplit | library.py:30 | title casing works word by word: a non-letter separates the title case of what precedes it from that of what follows |
| Text.TitleCaseNoLowerWordStart | library.py:30 | in a title-cased string no word starts with a lower-case letter |
| Inventory.LoadDocument | inventory.py:10-29 | an absent, empty or corrupted file gives no products, earnings 0 and next id 1001; a parsed file gives its document |
| Inventory.ProductFromKwargs | inventory.py:40-44 | `Product(**p)` as written refuses any dictionary with an `id` key, and a product it builds carries the `product_id` entry as its id |
| Inventory.ProductKwargsRoundTrip | inventory.py:40-44 | `Product(**p)` builds a given product iff the dictionary holds exactly its id, name, price and quantity under the keys `product_id`, `name`, `price` and `quantity` |
| Inventory.ProductFromDict | inventory.py:46-52 | the rebuild by the saved keys takes the product's id from the `id` entry |
| Inventory.ProductToDict | inventory.py:46-52 | the saved dictionary has the keys `id`, `name`, `price` and `quantity`, rebuilds to the same product by those keys and never through `Product(**p)` |
| Inventory.ProductDictRoundTrip | inventory.py:46-52 | a dictionary rebuilds to a product by the saved keys iff it is that product's saved dictionary |
| Inventory.Save | inventory.py:66-71 | the saved document has one dictionary per product, in order, each being that product's `to_dict`, and the same earnings and counter |
| Inventory.RebuildAsWritten | inventory.py:59-64 | starting as written succeeds iff every saved dictionary fits `Product(**p)`, and fails whenever one has an `id` key |
| Inventory.Rebuild | inventory.py:59-64 | the rebuild by the saved keys succeeds iff every saved dictionary rebuilds, keeping earnings and counter |
| Inventory.SavedStoreNeverRestarts | inventory.py:59-71 | as written, a saved store holding any product never starts again |
| Inventory.SaveRebuildRoundTrip | inventory.py:59-71 | rebuilding by the saved keys gives back the store that was saved, and only a saved store rebuilds to it |
| Inventory.InventorySystem.Start | inventory.py:59-64 | as written: no system iff the rebuild fails, otherwise a new system holding the rebuilt store; an absent, empty or corrupted file always starts, with the invariant |
| Inventory.InventorySystem.StartFromSaved | inventory.py:59-64 | the corrected start: no system iff the rebuild by the saved keys fails, otherwise a new system holding the rebuilt store |
| Inventory.SameNameIgnoresCase | inventory.py:77 | two names match iff they have the same length and agree position by position up to the case of ASCII letters; in particular a name matches its lower-cased form |
| Inventory.NameIndex | inventory.py:77 | the result is the first product whose lower-cased name equals the entered one, or none when no product matches |
| Inventory.IdIndex | inventory.py:116 | the result is the first product with the entered id, or none when no product has it |
| Inventory.AddProductTo | inventory.py:73-89 | a case-insensitive name match raises only that product's quantity (length, ids, prices and counter unchanged); otherwise exactly one product is appended with id = old counter and the counter grows by 1; earnings never change |
| Inventory.SkeletonValid | inventory.py:14-18 | the default skeleton satisfies the invariant |
| Inventory.AddProductKeepsValid | inventory.py:73-89 | adding or restocking keeps product ids unique and below the counter, and prices and stock non-negative |
| Inventory.AddProductStockValue | inventory.py:79-86 | the stock value rises by the added quantity times the matched product's price (restock) or the entered price (new product) |
| Inventory.Purchase | inventory.py:102-148 | an empty inventory, an unknown id, a non-positive quantity or a quantity above stock changes nothing; the purchase goes through iff the first product with that id has `0 < qty <= quantity`, and then only that product loses `qty` units and earnings rise by `qty * price` |
| Inventory.PurchaseKeepsValid | inventory.py:142-146 | a purchase keeps ids unique and below the counter and never drives stock negative |
| Inventory.PurchaseConservesValue | inventory.py:142-146 | stock value plus earnings is the same before and after any purchase attempt |
| Inventory.StockValueUpdate | inventory.py:159 | replacing one product changes the stock value by exactly the difference of that product's price times quantity |
| Inventory.StockValueAppend | inventory.py:159 | appending a product adds exactly its price times quantity to the stock value |
| Inventory.StockValueNonNegative | inventory.py:159 | with non-negative prices and quantities the stock value is non-negative |
| Inventory.InventorySystem.AddProduct | inventory.py:73-89 | the new state is `AddProductTo` of the old one, the result says whether a product was restocked, and the invariant is kept |
| Inventory.InventorySystem.AddEntered | inventory.py:168-223 | a negative price or quantity is refused, as `get_valid_float` and `get_valid_int` refuse it, then a name that is empty once stripped; otherwise the new state is `AddProductTo` with the stripped name; any refusal changes nothing; the invariant is kept |
| Inventory.InventorySystem.ProcessPurchase | inventory.py:102-148 | outcome and new state are those of `Purchase` on the old state, and the invariant is kept |
| Inventory.InventorySystem.ShowSummary | inventory.py:156-164 | reports the earnings and the stock value, which is never negative while the invariant holds |
| Hospital.LoadDocument | hospital.py:10-31 | an absent, empty or corrupted file gives no doctors, no appointments and counters 101 and 1 |
| Hospital.DoctorFromKwargs | hospital.py:42-46 | `Doctor(**d)` as written refuses any dictionary with an `id` key, and a doctor it builds carries the `doctor_id` entry as its id |
| Hospital.DoctorKwargsRoundTrip | hospital.py:42-46 | `Doctor(**d)` builds a given doctor iff the dictionary holds exactly its id, name, specialization and timings under the keys `doctor_id`, `name`, `specialization` and `timings` |
| Hospital.DoctorFromDict | hospital.py:48-54 | the rebuild by the saved keys takes the doctor's id from the `id` entry |
| Hospital.DoctorToDict | hospital.py:48-54 | the saved dictionary has the keys `id`, `name`, `specialization` and `timings`, rebuilds to the same doctor by those keys and never through `Doctor(**d)` |
| Hospital.DoctorDictRoundTrip | hospital.py:48-54 | a dictionary rebuilds to a doctor by the saved keys iff it is that doctor's saved dictionary |
| Hospital.Save | hospital.py:73-76 | the saved document has one dictionary per doctor, in order, each being that doctor's `to_dict`, and the same appointments and counters |
| Hospital.RebuildAsWritten | hospital.py:69-71 | starting as written succeeds iff every saved dictionary fits `Doctor(**d)`, and fails whenever one has an `id` key |
| Hospital.Rebuild | hospital.py:69-71 | the rebuild by the saved keys succeeds iff every saved dictionary rebuilds, keeping appointments and counters |
| Hospital.SavedDoctorsNeverRestart | hospital.py:69-76 | as written, a saved system holding any doctor never starts again |
| Hospital.SaveRebuildRoundTrip | hospital.py:69-76 | rebuilding by the saved keys gives back the system that was saved, and only a saved system rebuilds to it |
| Hospital.HospitalSystem.Start | hospital.py:69-71 | as written: no system iff the rebuild fails, otherwise a new system holding the rebuilt state; an absent, empty or corrupted file always starts, with the invariant |
| Hospital.HospitalSystem.StartFromSaved | hospital.py:69-71 | the corrected start: no system iff the rebuild by the saved keys fails, otherwise a new system holding the rebuilt state |
| Hospital.NatToString | hospital.py:64 | the decimal form of an age is a non-empty string of digits without a leading zero |
| Hospital.IntToString | hospital.py:64 | the decimal form of an integer starts with a minus sign iff it is negative, its digits read back as its magnitude, and it has no leading zero (zero is "0") |
| Hospital.ParseNatToString | hospital.py:64 | reading the decimal digits of a number back gives the number |
| Hospital.PatientString | hospital.py:63-64 | the patient string starts with the name and " (Age: " and ends with ", Condition: ", the disease and ")" |
| Hospital.PatientStringFields | hospital.py:63-64 | the patient string is the name, " (Age: ", the age's digits (reading back as the age), ", Condition: ", the disease and ")" |
| Hospital.RegisterPatient | hospital.py:87-105 | a patient is registered iff the entered age is positive, with that age, and with the typed name and disease stripped: each is the slice of what was typed with only whitespace around it and no whitespace at either end |
| Hospital.AddDoctorTo | hospital.py:78-85 | one doctor is appended with id = old doctor counter, that counter grows by 1, appointments and their counter are unchanged |
| Hospital.AddDoctorKeepsValid | hospital.py:80-83 | adding a doctor keeps both id lists unique and below their counters and every appointment's doctor registered |
| Hospital.DoctorIndex | hospital.py:134 | the result is the first doctor with the entered id, or none when no doctor has it |
| Hospital.Book | hospital.py:120-162 | no doctors or an unknown doctor id changes nothing; otherwise exactly one appointment is appended with id = old counter, the doctor's id and name, the patient string, the time and status "Scheduled", and only the appointment counter moves |
| Hospital.BookKeepsValid | hospital.py:149-161 | a booking keeps both id lists unique and below their counters and every appointment's doctor registered |
| Hospital.HospitalSystem.AddDoctor | hospital.py:78-85 | returns the old doctor counter as the new id, which under the invariant no registered doctor holds; the new state is `AddDoctorTo` of the old one, and the invariant is kept |
| Hospital.HospitalSystem.BookAppointment | hospital.py:120-162 | outcome and new state are those of `Book` on the old state, and the invariant is kept |
| Tracker.LoadData | tracker.py:12-24 | an absent, empty or corrupted file gives an empty transaction list |
| Tracker.SummaryOf | tracker.py:55-75 | the summary counts every transaction and its net is income less expenses; with positive amounts neither total is negative; when every type is "income" or "expense" the two totals make up all the money recorded |
| Tracker.SummaryBounds | tracker.py:62-66 | with positive amounts neither per-type sum is negative, and with only the two types they add up to the total |
| Tracker.SumOfKindAppend | tracker.py:62-66 | a new transaction adds its amount to the sum of its own type and to no other |
| Tracker.SummaryAppend | tracker.py:62-74 | recording one transaction moves income only for "income", expenses only for "expense", keeps net = income - expenses, and adds 1 to the count |
| Tracker.SumOfKindNonNegative | tracker.py:36-38 | with the positive amounts `add_transaction` admits, no per-type sum is negative |
| Tracker.IncomeAndExpensesCoverTotal | tracker.py:62-66 | when every type is "income" or "expense", income plus expenses is the sum of all amounts |
| Tracker.GroceriesSummary | tracker.py:55-75 | one expense of 50.00 gives income 0, expenses 50.00, net -50.00 and one transaction |
| Tracker.FinanceTracker.AddTransaction | tracker.py:31-53 | accepted iff the amount is positive; a refusal leaves the file as it was; an acceptance writes the loaded list plus one record with id = old length + 1 and the given type, amount, description and date; ids stay equal to position + 1 |
| Tracker.FinanceTracker.GetSummary | tracker.py:55-75 | the loop's totals are the sums of the "income" and "expense" amounts, net is their difference and the count is the list length; under the invariant neither total is negative |
| Library.NormaliseTitle | library.py:30 | a typed title is looked up stripped and title-cased: the result is its own title case and has no whitespace at either end |
| Library.AddBookTo | library.py:28-52 | an empty title or a negative quantity changes nothing; a known title gains the quantity, an unknown one is inserted with it; no other title changes and counts stay non-negative |
| Library.BorrowFrom | library.py:56-72 | an absent title or one with 0 copies changes nothing; otherwise exactly that title loses one copy; counts stay non-negative |
| Library.ReturnTo | library.py:76-93 | a known title gains one copy; an unknown one is inserted with 1 copy iff the answer is "y", otherwise nothing changes; no other title changes |
| Library.ReturnUndoesBorrow | library.py:67-93 | returning a title just borrowed restores the table |
| Library.BorrowUndoesReturn | library.py:67-93 | borrowing a known title just returned succeeds and restores the table |
| Library.LibraryInventory.constructor | library.py:3-8 | the table starts with the four titles as written and their counts, none negative |
| Library.LibraryInventory.Normalised | library.py:3-8 | the corrected starting table, with "Pride And Prejudice" in the form a typed title takes |
| Library.SeededTitleUnreachable | library.py:3-8 | no typed title is ever looked up as the seeded "Pride and Prejudice" |
| Library.NormalisedTitlesReachable | library.py:3-8 | every title of the corrected starting table is its own normal form, so typing it finds it |
| Library.LibraryInventory.AddBook | library.py:28-52 | outcome and new table are those of `AddBookTo` on the normalised title; counts stay non-negative |
| Library.LibraryInventory.BorrowBook | library.py:56-72 | outcome and new table are those of `BorrowFrom` on the normalised title; counts stay non-negative |
| Library.LibraryInventory.ReturnBook | library.py:76-93 | outcome and new table are those of `ReturnTo` on the normalised title and the lower-cased, stripped answer; counts stay non-negative |
| Atm.Balance | atm.py:34-41 | without a login there is no balance; with one it is the logged-in account's balance, never negative |
| Atm.Deposit | atm.py:43-60 | without a login or with a non-positive amount nothing changes; otherwise the logged-in account, and no other, gains the amount |
| Atm.Withdraw | atm.py:62-84 | not logged in iff no login; "must be positive" iff logged in and `amount <= 0`; insufficient funds iff logged in and `0 < amount` above the balance; goes through iff logged in and `0 < amount <= balance`, and then that account, and no other, loses exactly the amount; otherwise nothing changes; balances stay non-negative |
| Atm.WithdrawUndoesDeposit | atm.py:43-84 | withdrawing an amount just deposited restores the session |
| Atm.DepositUndoesWithdraw | atm.py:43-84 | depositing an amount just withdrawn restores the session |
| Atm.AutomatedTellerMachine.constructor | atm.py:3-10 | the three accounts with their balances, and no login |
| Atm.AutomatedTellerMachine.Authenticate | atm.py:14-32 | at most three PINs are read; it succeeds iff one of them is an account's PIN, logging in with the first such one; after three unknown PINs it fails and the login is unchanged; balances never change |
| Atm.AutomatedTellerMachine.CheckBalance | atm.py:34-41 | the reported balance is `Balance` of the session |
| Atm.AutomatedTellerMachine.DepositMoney | atm.py:43-60 | outcome and new session are those of `Deposit` |
| Atm.AutomatedTellerMachine.WithdrawMoney | atm.py:62-84 | outcome and new session are those of `Withdraw` |
| Teaching.Car.constructor | task.py:14-19 | every car built raises the car counter by exactly 1 |
| Teaching.PersonCounter.CountPeople | task.py:239-242 | the person counter grows by exactly 1 and the new count is returned |
| Teaching.Person.constructor | task.py:232-236 | every person built raises the person counter by exactly 1 |
| Teaching.AdultThreshold | task.py:245-247 | 17 is not adult and 18 is, and a person who is adult stays adult at every greater age |
| Teaching.BankAccount.constructor | task.py:45-50 | the account belongs to the owner and holds the initial balance |
| Teaching.BankAccount.Opened | task.py:45-50 | with `initial_balance` left at its default the account starts at 0 |
| Teaching.BankAccount.Deposit | task.py:58-64 | the balance changes iff the amount is positive, and then rises by exactly that amount |
| Teaching.BankAccount.Withdraw | task.py:66-72 | the balance changes iff `0 < amount <= balance`, falls by exactly that amount, and a non-negative balance stays non-negative |
| Teaching.Area | task.py:188-189 | a rectangle with non-negative sides has non-negative area, and the area is zero exactly when a side is |
| Teaching.AddLaws | task.py:210-214 | vector addition is commutative and associative with the zero vector as identity |
| Teaching.Student.constructor | task.py:266-270 | the student holds the given name, age and marks |
| Teaching.Student.AddMarks | task.py:272-275 | the subject gets the score, the subjects become the old ones plus it, no other subject's mark changes |
| Teaching.Student.UpdateMarks | task.py:278-283 | the set of subjects never changes; only a subject already present gets the new score; otherwise the marks are unchanged |
| Teaching.LoadEmployees | task.py:335-342 | an absent, empty or corrupted file is read as an empty map |
| Teaching.Upsert | task.py:344-345 | the employee's id is added or replaced with its record and every other entry is kept |
| Teaching.UpsertIdempotent | task.py:344-349 | storing the same employee twice gives the same file as storing it once |
| Teaching.Employee.constructor | task.py:308-312 | the employee holds the given name, id and salary |
| Teaching.Employee.StoreDetails | task.py:326-351 | the file afterwards holds the loaded map with this employee's entry upserted |

## Findings

| source | as written | input that shows it | evidently intended | confidence | as-written member | corrected member |
|---|---|---|---|---|---|---|
| inventory.py:40-63 | `to_dict` saves each product under the key `id`, but the start rebuilds each saved dictionary with `Product(**p)`, whose parameter is `product_id` | any start after a run that saved a product; the first run always seeds and saves two | a saved store starts again as it was saved | not executed | Inventory.SavedStoreNeverRestarts | Inventory.SaveRebuildRoundTrip |
| hospital.py:42-71 | `to_dict` saves each doctor under the key `id`, but the start rebuilds each saved dictionary with `Doctor(**d)`, whose parameter is `doctor_id` | any start after a run that saved a doctor; the first run always seeds and saves two | a saved system starts again as it was saved | not executed | Hospital.SavedDoctorsNeverRestart | Hospital.SaveRebuildRoundTrip |
| library.py:3-8 | the table is seeded with "Pride and Prejudice", but every typed title is title-cased, which gives "Pride And Prejudice" | typing "pride and prejudice" and choosing borrow reports the book as not in the collection | every seeded title can be borrowed by typing it | not executed | Library.SeededTitleUnreachable | Library.NormalisedTitlesReachable |

## Left out

- `info.py` is not part of this model. It is an HTTP client with retries, `time.sleep` backoff, float division and round-half-even rounding.
- JSON encoding and decoding, and every file read, write and append, are left out. This covers `_save_data`, `BankAccount._save_transaction`, `read_history` and `_initialize_file`. A file is the value it would decode to. The inventory's and hospital's saved documents are `Inventory.Save` and `Hospital.Save` of the state.
- Menus, `print` output and the display functions are left out: `show_inventory`, `show_summary`'s printing, `show_doctors`, `show_appointments`, `display_summary`, `view_available_books`, `display_details`, `get_details`, `start_engine` and `check_balance`'s message.
- Re-prompting loops are left out. The model takes one value per call. A value the script would reject and ask for again is returned as a rejection outcome, and nothing changes.
- The "q" and empty-input cancellations in `process_purchase` and `book_appointment` are left out. Both end the call without change, like a rejection.
- Some checks in the `main` menus are left out: the hospital's non-empty name, specialization and timings, and the tracker's non-empty description. Callers of the model decide these. The inventory's non-empty name check is modelled in `Inventory.InventorySystem.AddEntered`. The `main` seeding of default products and doctors appears only as sample sessions.
- Money is whole cents, not Python floats, so no float rounding behaviour is claimed.
- `Atm.Withdraw`: a NaN amount is neither `<= 0` nor `> balance`, so the script lets it through and the balance becomes NaN. The model has only finite amounts and does not capture this.
- `Atm.Deposit`: an infinite amount is positive, so the script accepts it and the balance becomes infinite. The model does not capture this.
- `Inventory.InventorySystem.AddEntered`: an infinite price passes `get_valid_float`'s check. The model accepts only finite whole cents.
- `Inventory.ProductFromKwargs`: the model does not cover `Product.__init__` coercing `price` with `float()` and `quantity` with `int()`. Only dictionaries whose values already have the right kind are rebuilt. The key mismatch between `to_dict` and the constructor is modelled; see "Findings".
- `Hospital.Save`: appointments are kept as values. The script keeps them as dictionaries and never rebuilds them, so their keys play no part in starting.
- `datetime.now()` timestamps are left out. They are string parameters.
- `Text.Lower`: only ASCII letters are lower-cased. `str.lower()` also folds other alphabets.
- `Text.TitleCaseFacts`: only ASCII letters count as cased. `str.title()` also cases other alphabets, and treats their letters as part of a word.
- `Text.StripSlice`: only ASCII whitespace and the separators 0x1C to 0x1F are stripped. `str.strip()` also strips Unicode spaces.
- PIN attempts are taken already stripped.
- `Hospital.HospitalSystem.AddDoctor`: the doctor's name, specialization and timings are taken already stripped; the menu strips them (hospital.py:208-210) before calling `add_doctor`.
- `Tracker.FinanceTracker.AddTransaction`: the description is taken already stripped; the menu strips it (tracker.py:111) before calling `add_transaction`.
- `Atm.AutomatedTellerMachine.Authenticate` models one session's three prompts. It does not model `start_atm` entering the menu.
- The float-based teaching code is left out: `Circle.area` with 3.14159, `Employee.calculate_net_salary`, `give_raise`, and the `net_salary` field that `store_details` writes.
- The print-only class demos are left out: `Vehicle`/`Sedan`, `Teacher`/`Researcher`/`Professor` and the abstract `Shape`. A rectangle is a value here and its area a function.
- The class attributes `Car.car_count` and `Person.number_of_people` are counter objects passed to the constructors, not globals of the class.
