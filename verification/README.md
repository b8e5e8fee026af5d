# NARICT savings and loan scheme — a Dafny model of the backend rules

The backend lets members of a staff savings and loan scheme:

- save money;
- preview and request loans;
- see a dashboard.

Admins register members and read scheme-wide figures. This project models the rules the Express handlers and Mongoose schemas apply. Each source file becomes one Dafny module:

- **`LoanInterest`**: the loan terms calculator. It computes the rate (whole three-month blocks at 2.5 %, leftover months at 0.8333 %, rounded to two decimals), the interest, the repayment including the 300 service charge, and the installment schedule. The last installment absorbs the rounding remainder.
- **`LoanModel`, `SavingModel`, `UserModel`**: the stored documents as datatypes, the schema constraints as predicates, and the `findOne` filters the handlers use.
- **`LoanController`**: the terms preview and loan creation, over a `LoanStore` class holding the loan collection.
  - A borrower is admitted only when every loan they already hold has status `"paid"`.
  - The created record is appended with status `"active"`.
- **`SavingController`**: deposit, withdrawal and the two lookups, over a `SavingsLedger` class holding a map from user to account. The ledger keeps every account's total equal to its deposits minus its withdrawals, and never negative.
- **`UserController`**: admin self-registration under a cap of three, user registration by an admin, login, password change, and the reset-token flow, over a `UserRegistry` class. The registry keeps these invariants:
  - the admin cap;
  - unique emails and unique ipssNumbers;
  - reset tokens and expiries set and cleared together.
- **`DashboardController`**: the user's summary with its zero defaults, and the admin's counts and interest revenue. Revenue is filter-then-sum over the loans.
- **`Validations`**: the Joi request schemas as predicates.
- **`Password`**: the temporary password generator. It is a loop over the character draws followed by a shuffle.
- **`Auth`**: bearer-token extraction and the 401/403 branches of the middleware.

Everything outside the program's own logic is an input:

- **bcrypt**: `hash` and `compare` functions.
- **The mailer**: a success flag.
- **`uuid.v4`**: the token string.
- **The clock**: `now`, in milliseconds or as a calendar date.
- **`jwt.verify`**: a partial function from token to payload.
- **`Math.random`**: the draws, as reals in [0, 1), plus the permutation the shuffle produces.

Request bodies are maps from field names to JavaScript values: undefined, null, number, string or boolean (JSON objects and arrays are not represented; see Left out). Handler answers are `Reply` values carrying the status code and either the payload or the error messages.

## Model

| member | source | states |
|---|---|---|
| `LoanInterest.Rate` | backend/src/config/loanInterest.js:13-24 | the rate after `toFixed(2)` is 2.5·⌊t/3⌋ + {0, 0.83, 1.67}[t mod 3] percent |
| `LoanInterest.RateInCents` | backend/src/config/loanInterest.js:13-24 | rounding the block-plus-remainder rate to cents gives 250·⌊t/3⌋ + {0, 83, 167}[t mod 3] hundredths |
| `LoanInterest.ShortTermAgreesWithBlockFormula` | backend/src/config/loanInterest.js:13-22 | for 1 ≤ t < 3 the short-term branch equals the block formula |
| `LoanInterest.FixedInstallmentBounds` | backend/src/config/loanInterest.js:30 | the floored share times the term is at most the repayment and falls short of it by less than the term |
| `LoanInterest.Schedule` | backend/src/config/loanInterest.js:34-41 | exactly `term` installments, months 1..term in order, none paid |
| `LoanInterest.ScheduleSum` | backend/src/config/loanInterest.js:30-41 | the installment amounts sum exactly to the repayment amount |
| `LoanInterest.ScheduleAmounts` | backend/src/config/loanInterest.js:30-41 | the first term−1 amounts are ⌊repayment/term⌋; the last is repayment − fixed·(term−1), at least the fixed amount and below fixed + term |
| `LoanInterest.CalculateLoanInterest` | backend/src/config/loanInterest.js:9-49 | rate in closed form, interest = rate/100·amount (not rounded), repayment = amount + interest + 300, term installments summing to the repayment |
| `LoanInterest.OneMonthTerm` | backend/src/config/loanInterest.js:34-41 | a one-month term is a single installment of the whole repayment |
| `LoanInterest.ThreeMonthExample` | backend/test/loan.test.js:416-452 | 20000 over 3 months gives rate 2.5, interest 500, repayment 20800, installments 6933, 6933, 6934 |
| `LoanController.LoanInputError` | backend/src/controllers/loanController.js:15-23 | falsy amount or term gives "required"; otherwise anything but two positive numbers gives "invalid"; no error exactly when both are positive numbers |
| `LoanController.LoansOf` | backend/src/controllers/loanController.js:25 | exactly the caller's loans |
| `LoanController.SomeNotPaidExists` | backend/src/controllers/loanController.js:27 | `some(status !== 'paid')` holds iff some loan is not "paid" |
| `LoanController.HasActiveLoanIff` | backend/src/controllers/loanController.js:25-33 | the borrower is refused iff one of their loans is not "paid"; an empty or all-paid history is admitted |
| `LoanController.InstallmentDocs` | backend/src/controllers/loanController.js:95 | the stored installments copy month, amount and paid, with no penaltyApplied |
| `LoanController.CreatedRecordViolatesSchema` | backend/src/controllers/loanController.js:85-96 | the record createLoan builds has a status outside the enum and lacks totalInterestAmount, recurringFee, finalPayment and penaltyApplied, so it fails the loan schema |
| `LoanController.LoanStore.CalculateLoanTerms` | backend/src/controllers/loanController.js:9-46 | 400 for bad input, then 400 for an unpaid loan; success exactly when neither applies and the term is a usable array length, and then the payload is `CalculateLoanInterest(amount, term)`; the store is not modified |
| `LoanController.LoanStore.CreateLoan` | backend/src/controllers/loanController.js:49-109 | 403 for non-users before validation, 400, 404 with no borrower, 400 with an unpaid loan; on success the built record (status "active", snapshot of name and ipssNumber, terms copied) is appended and the borrower now holds an unpaid loan, so an immediate second request fails; failures change nothing; at most one unpaid loan per borrower is kept. The store is the one the handler would produce if the save were not validated (see Left out) |
| `SavingModel.TxnTypeName` | backend/src/models/savingModel.js:35 | the transaction type is "deposit" or "withdrawal" |
| `SavingModel.NewAccount` | backend/src/models/savingModel.js:22-26 | an inserted account starts at total 0 with no transactions |
| `SavingModel.NetIsDepositsMinusWithdrawals` | backend/src/models/savingModel.js:33-39 | the signed sum of the transactions is the deposits minus the withdrawals |
| `SavingController.AmountGuard` | backend/src/controllers/savingController.js:11-27 | role 403 first, then "amount is required" for a falsy amount, then a missing id, then a non-positive or non-number amount; passes exactly for a user with an id and a positive amount |
| `SavingController.DepositKeepsConsistent` | backend/src/controllers/savingController.js:31-40 | a positive deposit adds exactly the amount and keeps total = deposits − withdrawals |
| `SavingController.WithdrawalKeepsConsistent` | backend/src/controllers/savingController.js:83-92 | a covered withdrawal subtracts exactly the amount, keeps the total consistent and non-negative |
| `SavingController.InsertedAccountSchemaValid` | backend/src/controllers/savingController.js:36 | the account a deposit inserts for a valid user carries an in-range ipssNumber |
| `SavingController.SavingsLedger.MakeSaving` | backend/src/controllers/savingController.js:7-51 | the guard's errors; 500 when the owner is missing; otherwise the account (inserted with total 0 if absent) gains the amount and one deposit transaction, and the reply is the new total |
| `SavingController.SavingsLedger.WithdrawSaving` | backend/src/controllers/savingController.js:55-105 | the guard's errors; 404 without an account; "Insufficient savings" when the total is below the amount; success exactly when amount ≤ total, then the total drops by the amount, one withdrawal is logged and the remainder is never negative; failures change nothing |
| `SavingController.SavingsLedger.GetTransactions` | backend/src/controllers/savingController.js:109-131 | the caller's transaction list, or 404 when they have no account |
| `SavingController.SavingsLedger.GetUserSaving` | backend/src/controllers/savingController.js:135-165 | 400 for a falsy ipssNumber before the admin check (403); 500 when the value fails the cast to a number; success exactly when some account has the cast number, and then a matching account is returned; otherwise 404 |
| `SavingController.CastToNumber` | backend/src/controllers/savingController.js:149 | a number is kept; a string is cast exactly when it is a non-empty run of decimal digits, to a non-negative whole number |
| `SavingController.DigitsValueOfNumeral` | backend/src/controllers/savingController.js:149 | reading the decimal numeral of n gives back n |
| `SavingController.NumeralMatchesLikeNumber` | backend/src/controllers/savingController.js:149 | the ipssNumber sent as a numeral string finds exactly the accounts the number finds |
| `SavingController.NonNumeralFailsCast` | backend/src/controllers/savingController.js:149 | a string with a non-digit character fails the cast |
| `UserModel.NewUser` | backend/src/models/userModel.js:12-16 | an omitted role becomes "user"; reset token and expiry start empty; all given fields are kept |
| `UserModel.IpssRequiredExactlyForUsers` | backend/src/models/userModel.js:23-34 | a document without an ipssNumber passes the schema iff its role is "admin" |
| `UserModel.FindFirst` | backend/src/controllers/userController.js:90 | `findOne`: the first matching document, or none when nothing matches |
| `UserModel.FindUser` | backend/src/controllers/loanController.js:69 | found iff some document has the id, and then it is that document |
| `UserController.AdminCount` | backend/src/controllers/userController.js:30 | the number of admins is at most the number of documents |
| `UserController.AdminCountAppend` | backend/src/controllers/userController.js:30 | appending a document raises the admin count by one exactly when it is an admin |
| `UserController.AdminCountUpdate` | backend/src/controllers/userController.js:223 | saving a document with the same role keeps the admin count |
| `UserController.EmailOfMatches` | backend/src/controllers/userController.js:100-106 | a document saved with the request's validated email is found again by a lookup on that same email |
| `UserController.RegisteredUserSchemaValid` | backend/src/models/userModel.js:5-46 | the user document built from an accepted registration body passes the user schema exactly when the body carries an email |
| `UserController.RegisteredAdminSchemaValid` | backend/src/models/userModel.js:5-46 | the admin document built from an accepted registration body passes the user schema exactly when the body carries an email |
| `UserController.NonStringTokenMatchesNobody` | backend/src/controllers/userController.js:320-325 | without a string token no document with paired token and expiry matches the reset query |
| `UserController.UnmatchedKeysDiffer` | backend/src/controllers/userController.js:81-94 | a document the duplicate query does not match differs from the new one in email and ipssNumber |
| `UserController.UniqueKeysAppend` | backend/src/models/userModel.js:18-41 | appending a document with a new email and ipssNumber keeps both unique |
| `UserController.UniqueKeysUpdate` | backend/src/models/userModel.js:18-41 | changing a document's other fields keeps email and ipssNumber unique |
| `UserController.AdminRegistrationUnreachableAsWritten` | backend/src/controllers/userController.js:16-41 | as written, no body both passes the user-data schema and carries a string password |
| `UserController.AdminRegistrationBodyExample` | backend/src/config/validations.js:3-46 | a concrete body with a password passes the declared-field checks and is refused by the schema as written |
| `UserController.LoginLookupAsWritten` | backend/src/controllers/userController.js:162-171 | as written, an accepted login body has no email, so only a document without an email can be found |
| `UserController.ResetUnreachableAsWritten` | backend/src/controllers/userController.js:310-325 | as written, an accepted reset body has no token, so the reset query matches no document |
| `UserController.UserRegistry.Insert` | backend/src/controllers/userController.js:42-49 | a saved document takes the next id and is appended; fresh email and ipssNumber keep both unique, and an admin saved below the cap raises the admin count by one |
| `UserController.UserRegistry.RegisterAdmin` | backend/src/controllers/userController.js:14-61 | 400 with every failing field; 403 for a taken email before the cap; 403 at three admins; 500 without a string password; otherwise one admin (no ipssNumber, hashed password) is appended, after which the same email is taken; failures change nothing; the admin count never exceeds 3. An admin without an email is appended here although the save would reject it (see Left out) |
| `UserController.UserRegistry.RegisterUser` | backend/src/controllers/userController.js:66-156 | 400 with every failing field, then 403 for a non-admin caller, then 403 when email or ipssNumber is taken; 500 and no change when the mail fails; otherwise one user with the hash of the generated 8-character password is appended and that password is returned, after which the same body finds a duplicate |
| `UserController.UserRegistry.LoginUser` | backend/src/controllers/userController.js:160-190 | 400 on schema errors, 404 when no document has the email, 400 on a wrong password; success exactly when the password compares, with the document's id, role and email as the claims to sign; nothing changes |
| `UserController.UserRegistry.ChangePassword` | backend/src/controllers/userController.js:194-232 | 400, 403 without an id, 404 without a document; 403 and no change for a wrong old password; otherwise only that document's password becomes the new hash |
| `UserController.UserRegistry.ForgotPassword` | backend/src/controllers/userController.js:236-304 | 400, 404; 500 and no change when the mail fails; otherwise the document gets the token and an expiry of now + 3600000, and the token matches exactly before that instant |
| `UserController.UserRegistry.ResetPassword` | backend/src/controllers/userController.js:308-339 | 400 on schema errors or without a matching unexpired token; on success the password becomes the new hash and token and expiry are cleared, so no reset query matches that document again |
| `Validations.UserDataErrors` | backend/src/config/validations.js:3-46 | every failing field is reported: fullName shorter than 5, a non-email, a role not admin/user, ipssNumber not an integer in [10000, 999999], phoneNumber not 11 digits |
| `Validations.UserDataValidIffNoErrors` | backend/src/config/validations.js:45 | with abortEarly false the body is valid iff no field fails |
| `Validations.LoginErrors` | backend/src/config/validations.js:49-64 | valid iff ipssNumber is in range and password has at least 8 characters |
| `Validations.ChangePasswordErrors` | backend/src/config/validations.js:66-86 | valid iff both passwords have at least 8 characters; each failure is reported |
| `Validations.ForgotPasswordError` | backend/src/config/validations.js:88-95 | valid iff a non-empty email string is present |
| `Validations.ResetDataError` | backend/src/config/validations.js:97-115 | valid iff ipssNumber is in range and newPassword has at least 8 characters; an ipssNumber failure is the one reported |
| `Validations.IpssError` | backend/src/config/validations.js:118-130 | valid iff ipssNumber is an integer in [10000, 999999] |
| `Validations.UndeclaredKeyAbsent` | backend/src/config/validations.js:3-46 | a body an object schema accepts as written lacks every undeclared key |
| `Password.DrawIndex` | backend/src/config/password.js:10-15 | `⌊r·len⌋` indexes the alphabet for every draw in [0, 1) |
| `Password.PickInAlphabet` | backend/src/config/password.js:10-15 | every picked character belongs to its alphabet |
| `Password.ClassInAllChars` | backend/src/config/password.js:3-6 | uppercase letters, lowercase letters and digits all belong to the whole alphabet |
| `Password.CharAtClass` | backend/src/config/password.js:10-16 | each appended character is in the whole alphabet; the first three are an uppercase letter, a lowercase letter and a digit |
| `Password.Built` | backend/src/config/password.js:8-16 | the unshuffled password has 8 characters |
| `Password.BuiltIsCharAt` | backend/src/config/password.js:8-16 | a string holding the drawn character at each of the 8 positions is the built string |
| `Password.Permute` | backend/src/config/password.js:18 | the shuffle keeps the length |
| `Password.SwapIsPermutation` | backend/src/config/password.js:18 | exchanging two entries of a permutation gives a permutation |
| `Password.DropLastIsPermutation` | backend/src/config/password.js:18 | a permutation fixing its last position permutes the rest |
| `Password.PermuteMultiset` | backend/src/config/password.js:18 | shuffling by any permutation keeps exactly the same characters |
| `Password.ShuffledCharacters` | backend/src/config/password.js:10-18 | the shuffled password keeps the built characters, all from the alphabet, with at least one uppercase letter, one lowercase letter and one digit |
| `Password.GeneratePassword` | backend/src/config/password.js:2-19 | 8 characters, the shuffle of the built string with the same characters, all from the alphabet, at least one uppercase, one lowercase and one digit |
| `Auth.Split` | backend/src/config/auth.js:7 | at least one piece, none containing the separator |
| `Auth.JoinSplit` | backend/src/config/auth.js:7 | joining the pieces gives back the header |
| `Auth.TokenIsSecondField` | backend/src/config/auth.js:7 | for a header "scheme token[ rest]" with space-free parts the token is extracted |
| `Auth.NoSpaceNoToken` | backend/src/config/auth.js:7-11 | a header without a space carries no token |
| `Auth.EmptySecondFieldNoToken` | backend/src/config/auth.js:7-11 | a header whose second field is empty carries no token |
| `Auth.Authenticate` | backend/src/config/auth.js:6-20 | no token gives 401 "No token provided"; a refused token gives 403 "Unauthorized"; otherwise the request proceeds with exactly the decoded payload |
| `Auth.MissingHeaderRefused` | backend/src/config/auth.js:7-11 | a request without an Authorization header gets 401 |
| `DashboardController.CountUnpaid` | backend/src/controllers/dashboardController.js:29 | the unpaid count never exceeds the installments; it is 0 iff all are paid and equals their number iff none is |
| `DashboardController.LastTransaction` | backend/src/controllers/dashboardController.js:24 | the newest transaction alone, or nothing for an empty list |
| `DashboardController.FirstAccount` | backend/src/controllers/dashboardController.js:22-25 | the first account of the user, or none when the user has none |
| `DashboardController.FirstApproved` | backend/src/controllers/dashboardController.js:26 | the first "approved" loan of the user, or none |
| `DashboardController.UserDashboard` | backend/src/controllers/dashboardController.js:7-44 | 403 for non-users; 500 when the user document is gone; otherwise 200 with the total and the last transaction of the user's first account (0 and [] without one), and the repayment amount, fee, final payment and unpaid-installment count of the user's first approved loan (0, 0, 0 and 0 without one) |
| `DashboardController.CreatedLoansShowNoBalance` | backend/src/controllers/dashboardController.js:26-37 | loans as createLoan writes them ("active") never show a balance |
| `DashboardController.SumTotalsNonNegative` | backend/src/controllers/dashboardController.js:58-62 | consistent accounts give non-negative total savings |
| `DashboardController.CountApproved` | backend/src/controllers/dashboardController.js:64 | the approved count is at most the number of loans and 0 iff none is approved |
| `DashboardController.CountUsers` | backend/src/controllers/dashboardController.js:66 | the user count is at most the number of documents and 0 iff none has role "user" |
| `DashboardController.Selected` | backend/src/controllers/dashboardController.js:68-79 | exactly the approved or completed loans of the given year (and month) |
| `DashboardController.RevenueAppend` | backend/src/controllers/dashboardController.js:68-105 | one more loan adds its interest exactly when it matches |
| `DashboardController.CreatedLoanEarnsNothing` | backend/src/controllers/dashboardController.js:68-105 | an "active" loan never changes the revenue |
| `DashboardController.SumInterestNonNegative` | backend/src/controllers/dashboardController.js:80-86 | without negative interest the summed revenue is non-negative |
| `DashboardController.MonthlyAtMostYearly` | backend/src/controllers/dashboardController.js:68-105 | without negative interest the month's revenue is at most the year's |
| `DashboardController.RevenueBounds` | backend/src/controllers/dashboardController.js:68-105 | without negative interest 0 ≤ monthly ≤ yearly |
| `DashboardController.MonthsRevenueAppend` | backend/src/controllers/dashboardController.js:68-105 | one loan contributes to the sum of months 1..k exactly when its month lies there |
| `DashboardController.YearlyIsSumOfMonths` | backend/src/controllers/dashboardController.js:68-105 | the yearly revenue is the sum of the twelve monthly revenues |
| `DashboardController.AdminDashboard` | backend/src/controllers/dashboardController.js:47-125 | 403 for non-admins; otherwise 200 with the summed savings, the approved-loan count, the user count, the month named monthNames[month−1] with its revenue and the year with its revenue, each equal to its filter-and-sum definition; hence counts bounded by the collections, 0 ≤ monthly ≤ yearly revenue and non-negative total savings for consistent data |

## Left out

- **MongoDB.** The collections are sequences or a map, with no concurrency. Left out of them:
  - the atomicity of the upsert;
  - aggregation-pipeline execution;
  - `$regex` search;
  - unique-index enforcement.

  The user registry keeps emails and present ipssNumbers unique through the handlers' own checks. Consequently:
  - a second admin, who has no ipssNumber, is admitted even though a real non-sparse unique index would refuse it;
  - per-ipssNumber uniqueness of savings accounts is not maintained.
- **Mongoose validation on save is not applied.** Stores keep records as built. What this means:
  - `LoanController.CreatedRecordViolatesSchema` shows that every loan record `createLoan` builds fails the loan schema: the status "active" is outside the enum, and `totalInterestAmount`, `recurringFee`, `finalPayment` and each installment's `penaltyApplied` are missing. In the running program every `createLoan` that reaches the save is therefore answered 500 "Unable to create loan" and stores nothing. The success branch of `LoanController.LoanStore.CreateLoan` and the at-most-one-unpaid-loan invariant describe the store the handler would produce without that validation.
  - `UserController.RegisteredUserSchemaValid` shows that a user registered without an email fails the user schema. `registerUser` saves inside the mailer callback without a `try`, so that rejection sends no reply at all; the model appends the user instead.
  - `UserController.RegisteredAdminSchemaValid` shows the same for an admin registered without an email, which the request schema allows. `registerAdmin` saves inside its `try`, so the program answers 500 "Admin resgistration unsuccessful" and stores nothing, while `UserController.UserRegistry.RegisterAdmin` appends the email-less admin and answers 201.
- **Joi.** These are left out:
  - email-format checking, beyond a non-empty string;
  - string lengths in UTF-16 code units: `.min()` and `.max()` count code units, the model counts characters, so a string with characters outside the Basic Multilingual Plane is measured shorter here;
  - conversion of numeric strings to numbers;
  - message texts. Validation failures report field names.

  The handlers are modelled against the declared-field checks. The rejection of undeclared keys is kept only in the as-written predicates of `Validations` (see Findings).
- **Dates.** `adminDashboard` takes the current year and month from the server's local time, while `$year` and `$month` read `createdAt` in UTC. The model takes `today` and each loan's creation date as given calendar dates and does not derive them from one instant, so loans created near a month or year boundary in a time zone other than UTC are not classified as the program would.
- **Request values.** JSON objects and arrays in a body are not represented, so Mongo operator filters and `$in` lists that reach a query unvalidated are out of reach of the model; the handlers affected are named below. Mongoose's cast of a number or boolean to a string for String paths is not modelled either.
- **Numbers.** Floating point is not modelled: amounts are exact reals. Left out are the binary effects of `toFixed(2)` and `/ 100`, and NaN and Infinity.
- **Environment variables.** Their coercion is not modelled. BASE_MONTH, BASE_INTEREST, SINGLE_INTEREST, SERVICE_CHARGE and MAX_ADMINS are fixed at their defaults.
- **Foreign calls.** bcrypt, nodemailer, `uuid.v4`, `jwt.sign`/`jwt.verify` and `Math.random` are inputs.
  - `loginUser` returns the claims it would sign (id, role and email), not a signed token; the token's expiry of one hour is not modelled.
  - The password shuffle is any permutation; the comparator-based `sort` is not reproduced.
- **Other handlers and files.** `searchUser` (a `$regex` search) is not part of this model. Neither are the routes, the Express app, the database connection and `fileResponse.js`.
- **Failure paths.** Database errors reaching the `catch` blocks are not modelled. Neither are the handlers that never answer after an error (`forgotPassword`, `resetPassword`).
- **Absent features.** Payments, penalties and loan status changes have no handler in the source.
- `SavingController.SavingsLedger.GetUserSaving`: returns some account with the ipssNumber, not the first in collection order. Without the unique index there may be several.
- `SavingController.SavingsLedger.GetUserSaving`: the Number cast of the filter accepts only numbers, booleans and plain digit strings. Strings JavaScript's `Number` would also accept (surrounding spaces, a sign, a fraction, an exponent, a hexadecimal prefix, "Infinity") are treated as cast errors (500), where the program would query with their value.
- `SavingController.SavingsLedger.GetUserSaving`: object- and array-valued fields are not modelled. The handler checks only truthiness and role, so an admin sending `{"$gt": 0}` or `[12345, 23456]` as the ipssNumber gets an operator or `$in` filter and a 200 answer with some account, which the model has no input for.
- `UserController.UserRegistry.ResetPassword`: object- and array-valued fields and Mongoose's cast of a number or boolean to its string form for String paths are not modelled. The refusal of a non-string token (no document matches) assumes the corrected reset schema declares `token` as a string; without such a declaration, a token like `{"$ne": null}` would match the first user holding a live token.
- `LoanController.ScheduleBuildable`: only the array-length limit of 2^32 − 1 is modelled. Building and mapping a schedule of billions of entries would exhaust memory long before that limit, which the model does not capture.
- `SavingController.SavingsLedger.MakeSaving`: the inserted account copies the owner's ipssNumber without the schema's range check.

## Findings

| source | as written | input that shows it | evidently intended | confidence | as-written member | corrected member |
|---|---|---|---|---|---|---|
| backend/src/controllers/userController.js:16-41 | `ValidateUserData` declares no `password`, so Joi refuses a body carrying one, while `bcrypt.hash(password)` throws without one: no admin can ever register | `{fullName: "Amina Bello", ipssNumber: 12345, phoneNumber: "08012345678", password: "s3cretPass"}` gets 400 `"password" is not allowed` | admins register with the password they send | high; not executed | `UserController.AdminRegistrationUnreachableAsWritten` | `UserController.UserRegistry.RegisterAdmin` |
| backend/src/controllers/userController.js:162-171 | the login schema declares ipssNumber and password only, so a body with `email` is refused, and without it the lookup is by an undefined email | any body with an `email` key gets 400 | login looks the user up by the email sent | high; not executed | `UserController.LoginLookupAsWritten` | `UserController.UserRegistry.LoginUser` |
| backend/src/controllers/userController.js:310-325 | the reset schema declares ipssNumber and newPassword only, so a body with `token` is refused, and without it no document matches | any body with a `token` key gets 400 | the emailed token resets the password once | high; not executed | `UserController.ResetUnreachableAsWritten` | `UserController.UserRegistry.ResetPassword` |
