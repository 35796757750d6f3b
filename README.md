# Bank-statement transaction extractors

This project is a Dafny model of the six statement parsers in `app/api/parsers/`. Each parser
takes the text of one bank statement and emits an ordered list of `{date, description, amount}`
records:

- American Express;
- ANZ;
- Commonwealth Bank (CBA);
- Westpac debit;
- Westpac credit card;
- a generic "local" layout.

Every parser recognises lines (or, for ANZ, matches in the whole text) with a regular
expression. It rebuilds an ISO `YYYY-MM-DD` date from a month table, a fixed year or a
two-digit-year pivot. It picks and signs an amount token and trims or stitches a description.
The model states, for each parser, which records come out, in which order, and what each
field of a record is.

## How the model is built

- **Shared modules:**
  - `Wrappers` holds `Option` and `Result`.
  - `Text` holds character classes and the Python string operations the parsers use:
    `strip`, `in`, `find`, `rfind`, `split(sep)[1]`, `join`, `replace(",", "")`, `zfill`,
    `re.sub(r'\s{2,}', ' ', s)` and decimal digits.
  - `Calendar` holds the `datetime` facts: valid dates, the `%y` pivot, the `%b` month
    abbreviations, `%Y-%m-%d` formatting and the month tables.
  - `Ledger` holds the record type, amounts in cents, and the "append each line's outcome"
    and "stop at the first exception" loops as functions over sequences.
  - `Patterns` holds the two regex behaviours every parser relies on:
    - the backtracking order of a greedy `\s+` followed by a lazy `(.*?)`/`(.+?)`;
    - `re.findall`/`re.finditer`, as a leftmost, non-overlapping scan.
- **Regular expressions** become dedicated matchers. Each matcher has two lemmas:
  - a soundness lemma: what it returns is a reading of the pattern;
  - a completeness or priority lemma: every reading is found, and the one returned is the
    one Python's engine settles on.
- **Amounts:**
  - The five parsers whose amount tokens always have exactly two decimals hold amounts as
    integer cents (`Ledger.Cents`).
  - `local.py` reads `[\d,.]+` fields with `float()`, which can reject its input. The model
    reads them as exact reals and returns the rejected text as an error.
- **Loops:**
  - Each parser's loop is a `method` proved equal to a function of its input lines (or
    text). That function's properties are proved as lemmas.
  - The Amex loop and both Westpac credit-card loops keep the source's cursor.
  - The two `local.py` passes are separate loops. The second runs only when the first
    returned nothing.
- **Inputs:** each parser takes the lines, or the text, that `pdfplumber` would have
  extracted.

## Behaviour worth knowing

- **Amex.**
  - The description is the lazy middle group of the date line itself (`parse_pdf_amex.py:45`, `56`).
  - The amount is the date line's trailing `\d+\.\d{2}` token, negated (`parse_pdf_amex.py:45`, `57`, `77`).
  - The only look-ahead is the one-line `Reference:` check (`parse_pdf_amex.py:62-67`). The cursor then
    stays on the line it looked at, so that line is examined as a candidate too.
- **ANZ.** A `CR` label keeps the amount's value, and its absence negates it (`parse_pdf_anz.py:49-50`).
- **Westpac credit card.**
  - Dates are `dd/mm/yy` (`parse_pdf_westpac_credit_card.py:17`). `strptime("%d/%m/%y")` expands the
    year with the `%y` pivot: 00-68 become 20xx and 69-99 become 19xx (`parse_pdf_westpac_credit_card.py:36`).
  - The description collects every following line, up to the first one holding two or more amounts
    (`parse_pdf_westpac_credit_card.py:44-55`).
  - The credit keywords are `Deposit` and `Refund`, matched case-sensitively by `in`
    (`parse_pdf_westpac_credit_card.py:67`).
- **CBA.** A balance line's date comes from `date_pattern.search`. The pattern starts with `^` and is
  compiled without `re.MULTILINE`, so the date is read only when it starts the stripped line
  (`parse_pdf_cba.py:17`, `41`).
- **Local.** In the match the engine settles on, each greedy amount group takes its whole `[\d,.]`
  run, and money out is set whenever any amount is (`local.py:40-42`). So the `elif money_in`
  branch never gives an amount (`local.py:79-80`).

## Model

| member | source | states |
|---|---|---|
| Amex.FirstPrefix | app/api/parsers/parse_pdf_amex.py:44 | the month alternation picks an index whose name starts the line |
| Amex.FirstPrefixOnly | app/api/parsers/parse_pdf_amex.py:44 | when only one month name starts the line, the alternation picks that one |
| Amex.OnePrefix | app/api/parsers/parse_pdf_amex.py:44 | in a prefix-free name list at most one name starts a line |
| Amex.MonthNamesArePrefixFree | app/api/parsers/parse_pdf_amex.py:44 | no full month name begins another, so a date line's month is unambiguous |
| Amex.Match | app/api/parsers/parse_pdf_amex.py:43-46 | `date_line_pattern.match`: a month from 1 to 12 and one or two day digits |
| Amex.MatchSound | app/api/parsers/parse_pdf_amex.py:43-46 | a match is a reading of the pattern. Its whitespace/description split is the one the engine reaches first: longest `\s+`, then shortest `(.+?)` |
| Amex.MatchComplete | app/api/parsers/parse_pdf_amex.py:43-46 | every reading of a line is found, with the same month and day |
| Amex.ReadingIsDetermined | app/api/parsers/parse_pdf_amex.py:44-45 | every reading has the month the alternation finds and the whole digit run after it as the day |
| Amex.SpacedAmountHasNoLetter | app/api/parsers/parse_pdf_amex.py:45 | the `\s+(\d+\.\d{2})$` tail holds no letter |
| Amex.Day | app/api/parsers/parse_pdf_amex.py:55 | the day group is one or two digits |
| Amex.Description | app/api/parsers/parse_pdf_amex.py:56 | the stripped description has no surrounding whitespace |
| Amex.AmountText | app/api/parsers/parse_pdf_amex.py:45-57 | the amount group is `\d+\.\d{2}`, unsigned and readable as cents |
| Amex.ReferenceOf | app/api/parsers/parse_pdf_amex.py:62-67 | empty when the next stripped line lacks `Reference:`. Otherwise the text between the first marker and the next one, stripped, with no marker and no surrounding whitespace |
| Amex.WithReference | app/api/parsers/parse_pdf_amex.py:69-71 | ` Ref:<reference>` is appended exactly when the reference is non-empty. The description is always kept as a prefix |
| Amex.YearText | app/api/parsers/parse_pdf_amex.py:59 | the year prints as `2025-` |
| Amex.DateText | app/api/parsers/parse_pdf_amex.py:55-59 | the date text is `2025-`, the month table's code and the day zero-filled to two. No calendar check is made |
| Amex.Entry | app/api/parsers/parse_pdf_amex.py:54-78 | the record's date is 2025 with the matched month and day. Its amount is the negated trailing token and is never positive |
| Amex.Outcome | app/api/parsers/parse_pdf_amex.py:50-53 | a line gives a record exactly when its stripped text matches the date-line pattern |
| Amex.Parse | app/api/parsers/parse_pdf_amex.py:48-81 | the cursor loop, with its one-line `Reference:` look-ahead, returns one record per date line in line order. The look-ahead line is examined as a candidate too |
| Amex.Outcomes | app/api/parsers/parse_pdf_amex.py:48-81 | each line's outcome, the look-ahead included, in line order |
| Amex.Transactions | app/api/parsers/parse_pdf_amex.py:48-81 | the values of the outcomes that are records, in line order |
| Amex.AmountsNotPositive | app/api/parsers/parse_pdf_amex.py:57-77 | no emitted amount is positive |
| Amex.OnePerDateLine | app/api/parsers/parse_pdf_amex.py:48-81 | the j-th record comes from the j-th matching line, and every matching line gives one |
| Anz.TokenStart | app/api/parsers/parse_pdf_anz.py:23 | an amount token starts after the whitespace run, or after the `$` that closes it |
| Anz.TokenAfter | app/api/parsers/parse_pdf_anz.py:23 | `\s+\$?([\d,]+\.\d{2})` from a position: the token lies inside the text |
| Anz.TokenAfterSound | app/api/parsers/parse_pdf_anz.py:23 | what `TokenAfter` finds is a reading of `\s+\$?amount` |
| Anz.TokenAfterComplete | app/api/parsers/parse_pdf_anz.py:23 | every reading of `\s+\$?amount` is the one `TokenAfter` finds |
| Anz.BalanceFrom | app/api/parsers/parse_pdf_anz.py:24-25 | the balance is read after the `CR` label when there is one |
| Anz.TailAt | app/api/parsers/parse_pdf_anz.py:23-25 | amount, optional `CR` and balance lie in order |
| Anz.TailAtSound | app/api/parsers/parse_pdf_anz.py:23-25 | what `TailAt` finds reads as amount, `\s*(CR)?\s+` and balance |
| Anz.TailAtComplete | app/api/parsers/parse_pdf_anz.py:23-25 | a tail has at most one reading. `CR` is captured exactly when it follows the amount's whitespace |
| Anz.Fields | app/api/parsers/parse_pdf_anz.py:19-21 | the processed date, the transaction date and the card lie in order |
| Anz.FieldsExact | app/api/parsers/parse_pdf_anz.py:19-21 | `Fields` finds the date and card fields exactly when they are read, and only that reading |
| Anz.RowAt | app/api/parsers/parse_pdf_anz.py:17-28 | a match starting at a position lies inside the text and ends after its balance |
| Anz.RowAtSound | app/api/parsers/parse_pdf_anz.py:17-28 | a match is a reading of the whole pattern, with the lazy description the engine settles on |
| Anz.RowAtComplete | app/api/parsers/parse_pdf_anz.py:17-28 | every reading with the engine's description split is the match found |
| Anz.RowAmount | app/api/parsers/parse_pdf_anz.py:23 | a match's amount group reads as `\s+\$?amount` |
| Anz.RowDate | app/api/parsers/parse_pdf_anz.py:20 | a match's transaction date is `\d{2}/\d{2}/\d{4}` |
| Anz.RowLenBounded | app/api/parsers/parse_pdf_anz.py:41 | a match never reaches past the end of the text |
| Anz.RowOf | app/api/parsers/parse_pdf_anz.py:41 | the reading of each match `finditer` yields |
| Anz.GroupsWellFormed | app/api/parsers/parse_pdf_anz.py:42-49 | the groups of a match have the shape the conversion needs |
| Anz.MatchesScanned | app/api/parsers/parse_pdf_anz.py:41 | the matches are leftmost, non-overlapping and in text order |
| Anz.Matches | app/api/parsers/parse_pdf_anz.py:41 | `finditer`: try each position in turn, take the match that starts there and go on from its end |
| Anz.MatchGroupsOf | app/api/parsers/parse_pdf_anz.py:42-49 | the groups of a yielded match are well formed |
| Anz.MatchGroups | app/api/parsers/parse_pdf_anz.py:41-49 | one well-formed group set per match, in order |
| Anz.ReadDate | app/api/parsers/parse_pdf_anz.py:42-44 | `DD/MM/YYYY` is reformatted as `YYYY-MM-DD` from the transaction date's own digits |
| Anz.Convert | app/api/parsers/parse_pdf_anz.py:42-57 | succeeds exactly when the transaction date exists. The record carries that date and the stripped description. A failure reports the date text |
| Anz.ConvertSign | app/api/parsers/parse_pdf_anz.py:46-50 | with `CR` the amount is the token's value, positive or zero. Without it the value is negated |
| Anz.ConvertEach | app/api/parsers/parse_pdf_anz.py:41-59 | the loop converts the matches in order and stops at the first bad date |
| Anz.Outcomes | app/api/parsers/parse_pdf_anz.py:41-59 | each match's conversion, in match order |
| Anz.Transactions | app/api/parsers/parse_pdf_anz.py:41-62 | the records of all matches in order, or the first conversion's error |
| Anz.Parse | app/api/parsers/parse_pdf_anz.py:41-62 | the parser's result is the conversion of every match, or the first error |
| Anz.ConvertAll | app/api/parsers/parse_pdf_anz.py:41-59 | a run succeeds exactly when every transaction date exists. The k-th record is then the k-th match's conversion |
| Anz.ConvertFails | app/api/parsers/parse_pdf_anz.py:43-62 | a failed run reports the first match whose date does not exist. Nothing partial is returned |
| Cba.DateAt | app/api/parsers/parse_pdf_cba.py:17 | `date_pattern.match`: what it finds is a reading of the pattern |
| Cba.ScanExact | app/api/parsers/parse_pdf_cba.py:17 | every reading takes each digit, space and letter run whole |
| Cba.DateAtComplete | app/api/parsers/parse_pdf_cba.py:17 | every reading at the start of a line is the one found |
| Cba.DateAtExact | app/api/parsers/parse_pdf_cba.py:17 | the match is found exactly when the line reads as the pattern, and there is at most one reading |
| Cba.MonthCode | app/api/parsers/parse_pdf_cba.py:20-24 | `MONTH_MAP.get(name, "01")`: the code of a full month name, `01` for anything else |
| Cba.IsBalanceLine | app/api/parsers/parse_pdf_cba.py:40 | the line holds `OPENING BALANCE` or `CLOSING BALANCE` |
| Cba.DateOf | app/api/parsers/parse_pdf_cba.py:44 | the date text is the year as written, the month code and the day zero-filled. No calendar check is made |
| Cba.LineDate | app/api/parsers/parse_pdf_cba.py:41-46 | no date exactly when the line does not start with `D Month YYYY`. Otherwise the date read there |
| Cba.BalanceRecord | app/api/parsers/parse_pdf_cba.py:40-55 | amount 0 and the line's leading date, if any. The description is `OPENING BALANCE` exactly when the line holds `OPENING`, else `CLOSING BALANCE` |
| Cba.BalanceDescription | app/api/parsers/parse_pdf_cba.py:40-48 | a balance line names the balance it holds. An opening balance wins over a closing one |
| Cba.AmountsScanned | app/api/parsers/parse_pdf_cba.py:66 | the amount tokens are `findall`'s: leftmost and non-overlapping |
| Cba.Amounts | app/api/parsers/parse_pdf_cba.py:66 | `amount_pattern.findall` over the rest of the line |
| Cba.AmountTokens | app/api/parsers/parse_pdf_cba.py:18 | every token is a signed grouped amount, readable as cents |
| Cba.LastAmount | app/api/parsers/parse_pdf_cba.py:69 | `amounts[-1]`: the last token, readable as cents |
| Cba.LastAmountPos | app/api/parsers/parse_pdf_cba.py:73 | `rfind`: the last occurrence of the token, no earlier than where `findall` found it |
| Cba.LastAmountOccurs | app/api/parsers/parse_pdf_cba.py:66-73 | the last token occurs where `findall` found it |
| Cba.DatedRecord | app/api/parsers/parse_pdf_cba.py:59-83 | the date as read. With no amount token: amount 0 and the whole stripped rest. Otherwise the negated last token and the stripped text before its last occurrence |
| Cba.Outcome | app/api/parsers/parse_pdf_cba.py:37-83 | a record exactly for a balance line or a line that starts with a date. Balance lines take precedence |
| Cba.Parse | app/api/parsers/parse_pdf_cba.py:29-83 | the line loop returns the records of all lines in order |
| Cba.Outcomes | app/api/parsers/parse_pdf_cba.py:36-83 | each line's outcome, in line order |
| Cba.Records | app/api/parsers/parse_pdf_cba.py:36-83 | the values of the outcomes that are records, in line order |
| Cba.OnePerLine | app/api/parsers/parse_pdf_cba.py:36-83 | the j-th record comes from the j-th balance or dated line, and every such line gives one |
| Cba.DatedAmountSign | app/api/parsers/parse_pdf_cba.py:69-82 | the amount is the last amount token's cents negated, so a token without `-` gives a debit (at most 0) and one with `-` a credit (at least 0) |
| Cba.DescriptionBeforeAmount | app/api/parsers/parse_pdf_cba.py:72-76 | the description has no surrounding whitespace and ends before the amount's last occurrence |
| Westpac.LineAt | app/api/parsers/parse_pdf_westpac.py:17 | `line_start_pattern.match`: what it finds is a reading of the pattern |
| Westpac.ScanExact | app/api/parsers/parse_pdf_westpac.py:17 | every reading takes each whitespace, digit and letter run whole |
| Westpac.LineAtExact | app/api/parsers/parse_pdf_westpac.py:17 | the match is found exactly when the line reads as the pattern, and there is at most one reading |
| Westpac.YearValue | app/api/parsers/parse_pdf_westpac.py:17 | the `\d{2}` year is below 100 |
| Westpac.ParseDate | app/api/parsers/parse_pdf_westpac.py:48-51 | `strptime("%d %b %y")`: the one valid date the fields spell (month abbreviation in any case, `%y` pivot), or none |
| Westpac.Amounts | app/api/parsers/parse_pdf_westpac.py:36 | `findall` of `[\d,]+\.\d{2}`: leftmost, non-overlapping tokens |
| Westpac.LastAmount | app/api/parsers/parse_pdf_westpac.py:40 | `amounts_found[-1]`: an unsigned comma amount occurring where it was found |
| Westpac.LastAmountFound | app/api/parsers/parse_pdf_westpac.py:18-36 | each token is a comma amount occurring where it starts |
| Westpac.LastAmountPos | app/api/parsers/parse_pdf_westpac.py:41 | `rfind`: the last occurrence, no earlier than where `findall` found the token |
| Westpac.Description | app/api/parsers/parse_pdf_westpac.py:42-45 | the stripped text before that occurrence. `-` when it is empty or all digits. Never empty, never padded |
| Westpac.Entry | app/api/parsers/parse_pdf_westpac.py:53-62 | the token's value, kept for `CRED VOUCHER` and negated otherwise, with the description's whitespace collapsed |
| Westpac.Matched | app/api/parsers/parse_pdf_westpac.py:35-62 | a matched line gives a record exactly when its rest holds an amount and its date exists |
| Westpac.Outcome | app/api/parsers/parse_pdf_westpac.py:31-62 | nothing for a line that does not match, otherwise what the matched line gives |
| Westpac.OutcomeAccepted | app/api/parsers/parse_pdf_westpac.py:31-62 | a line gives a record exactly when it is accepted, and that record is the entry of its date and rest |
| Westpac.OutcomeOfScan | app/api/parsers/parse_pdf_westpac.py:31-33 | a line's outcome follows from the one reading the matcher finds |
| Westpac.Parse | app/api/parsers/parse_pdf_westpac.py:30-62 | the line loop returns the records of all lines in order |
| Westpac.Outcomes | app/api/parsers/parse_pdf_westpac.py:30-62 | each line's outcome, in line order |
| Westpac.Transactions | app/api/parsers/parse_pdf_westpac.py:30-62 | the values of the outcomes that are records, in line order |
| Westpac.OnePerLine | app/api/parsers/parse_pdf_westpac.py:30-62 | the j-th record comes from the j-th accepted line, and every accepted line gives one |
| Westpac.DescriptionShape | app/api/parsers/parse_pdf_westpac.py:60 | the emitted description is non-empty, starts visibly and has no two adjacent whitespace characters. It keeps every visible character |
| WestpacCreditCard.DateFieldsAreDigits | app/api/parsers/parse_pdf_westpac_credit_card.py:17 | the three date fields are digits |
| WestpacCreditCard.DateStarts | app/api/parsers/parse_pdf_westpac_credit_card.py:17 | `date_pattern.match`: `\d{2}/\d{2}/\d{2}` followed by whitespace at the start of the line |
| WestpacCreditCard.Remainder | app/api/parsers/parse_pdf_westpac_credit_card.py:17-41 | group 2, `(.*)`: the text after the whitespace up to a line feed, stripped |
| WestpacCreditCard.ParseDate | app/api/parsers/parse_pdf_westpac_credit_card.py:34-39 | `strptime("%d/%m/%y")`: the one valid date the fields spell, with the year in 1969-2068, or none |
| WestpacCreditCard.AmountsScanned | app/api/parsers/parse_pdf_westpac_credit_card.py:49 | the amount tokens are `findall`'s: leftmost and non-overlapping |
| WestpacCreditCard.AmountTokens | app/api/parsers/parse_pdf_westpac_credit_card.py:59 | every token is an unsigned amount readable as cents |
| WestpacCreditCard.Amounts | app/api/parsers/parse_pdf_westpac_credit_card.py:49 | `amount_pattern.findall` of a line |
| WestpacCreditCard.IsAmountsLine | app/api/parsers/parse_pdf_westpac_credit_card.py:49 | the test `len(...) >= 2` that ends the description |
| WestpacCreditCard.TokenIsAmount | app/api/parsers/parse_pdf_westpac_credit_card.py:49 | a match of the grouped-amount pattern is an unsigned decimal token |
| WestpacCreditCard.AmountsLineAfter | app/api/parsers/parse_pdf_westpac_credit_card.py:44-52 | the first later line holding two or more amounts, or the end of input |
| WestpacCreditCard.AmountsLineAfterNext | app/api/parsers/parse_pdf_westpac_credit_card.py:47-52 | the next line ends the search exactly when it is an amounts line |
| WestpacCreditCard.Parts | app/api/parsers/parse_pdf_westpac_credit_card.py:41-55 | `description_parts`: the remainder, then each stripped line before the amounts line |
| WestpacCreditCard.PartsLines | app/api/parsers/parse_pdf_westpac_credit_card.py:41-55 | the parts are the remainder, then every following stripped line, date lines included |
| WestpacCreditCard.PartsSnoc | app/api/parsers/parse_pdf_westpac_credit_card.py:54 | one more line appends its stripped text |
| WestpacCreditCard.Pick | app/api/parsers/parse_pdf_westpac_credit_card.py:59-79 | an amount exactly for 2 or 3 tokens. It is the first token, negated unless there are two tokens and the description names `Deposit` or `Refund` |
| WestpacCreditCard.NamesCredit | app/api/parsers/parse_pdf_westpac_credit_card.py:67 | `"Deposit" in description or "Refund" in description` |
| WestpacCreditCard.Emit | app/api/parsers/parse_pdf_westpac_credit_card.py:81-86 | the append of at most one record |
| WestpacCreditCard.From | app/api/parsers/parse_pdf_westpac_credit_card.py:29-88 | the cursor scan from a line: each step's record, then the scan from where the step left the cursor |
| WestpacCreditCard.Step | app/api/parsers/parse_pdf_westpac_credit_card.py:30-88 | the cursor strictly advances |
| WestpacCreditCard.Opened | app/api/parsers/parse_pdf_westpac_credit_card.py:41-88 | a candidate moves the cursor past its amounts line |
| WestpacCreditCard.FromStep | app/api/parsers/parse_pdf_westpac_credit_card.py:30-88 | the scan emits one step's record, then continues from where that step leaves the cursor |
| WestpacCreditCard.OpenedAtEnd | app/api/parsers/parse_pdf_westpac_credit_card.py:44-46 | a candidate without an amounts line is discarded, and the scan ends |
| WestpacCreditCard.StepEmits | app/api/parsers/parse_pdf_westpac_credit_card.py:31-86 | a record's date is its line's valid date. Its description joins the parts with single spaces, and its amount is what the amounts line gives. The scan resumes after that line |
| WestpacCreditCard.StepRecord | app/api/parsers/parse_pdf_westpac_credit_card.py:36-76 | one step's record has a valid 1969-2068 date and is positive only as a named credit |
| WestpacCreditCard.FromRecords | app/api/parsers/parse_pdf_westpac_credit_card.py:29-88 | every record has a valid 1969-2068 date and is positive only when the description names a deposit or refund |
| WestpacCreditCard.FromBound | app/api/parsers/parse_pdf_westpac_credit_card.py:29-88 | at most one record per line |
| WestpacCreditCard.Candidate | app/api/parsers/parse_pdf_westpac_credit_card.py:31-88 | one outer iteration is the step function |
| WestpacCreditCard.Stitch | app/api/parsers/parse_pdf_westpac_credit_card.py:41-55 | the inner loop collects the description parts up to the amounts line and stops the cursor on it, or on the last line |
| WestpacCreditCard.Settle | app/api/parsers/parse_pdf_westpac_credit_card.py:59-79 | the debit/credit choice equals `Pick` |
| WestpacCreditCard.Parse | app/api/parsers/parse_pdf_westpac_credit_card.py:29-88 | the cursor loop returns the records of the scan from the first line |
| WestpacCreditCard.Transactions | app/api/parsers/parse_pdf_westpac_credit_card.py:29-88 | the scan from the first line |
| Local.Fields | app/api/parsers/local.py:40-42 | the numeric fields are the maximal `[\d,.]` runs |
| Local.FieldsSkipSpaces | app/api/parsers/local.py:40-42 | leading whitespace does not change the fields |
| Local.FieldsStep | app/api/parsers/local.py:40-42 | one greedy step: after the whitespace run, the end of the line leaves no fields, a character outside `[\d,.]` leaves none at all, and otherwise the numeric run is the first field |
| Local.FieldsEmpty | app/api/parsers/local.py:42 | no fields are left exactly when only whitespace is left, as the closing `\s*$` requires |
| Local.FieldsFitStep | app/api/parsers/local.py:40-42 | at most n+1 fields exactly when the greedy step does not stop on another character and at most n fields follow it. Its run is then the first field |
| Local.EndStops | app/api/parsers/local.py:40-42 | a greedy `+` or `*` over `\s` or `[\d,.]` stops at the end of the line or on a character outside the class |
| Local.EndAll | app/api/parsers/local.py:40-42 | every character a greedy run takes is in its class |
| Local.EndReaches | app/api/parsers/local.py:40-42 | a greedy run reaches at least as far as any run of its class from the same start |
| Local.ColumnsRead | app/api/parsers/local.py:39-42 | a way the tail can match: `\s+`, money out, `\s*`, money in, `\s*`, balance, `\s*` to the end, each group a `[\d,.]` run or absent. In the fallback (`local.py:50-51`) the one group is present |
| Local.Greedy | app/api/parsers/local.py:39-42 | the engine's first attempt at the tail: each `\s+`, `\s*` and `([\d,.]+)?` in turn takes its whole run |
| Local.GreedyReads | app/api/parsers/local.py:39-42 | the first attempt reads the tail exactly when its whitespace run is not empty and only whitespace follows its last group (and the fallback's group is present) |
| Local.GreedyCollapse | app/api/parsers/local.py:40-42 | when the first attempt leaves money out or money in absent, every later boundary stays where that group would have started |
| Local.TailColumnsTyped | app/api/parsers/local.py:39-42 | the primary tail can start at a position exactly when the first attempt from there reads it. Its groups are then the numeric fields, in order |
| Local.TailColumnsFallback | app/api/parsers/local.py:50-51 | the fallback tail can start at a position exactly when the first attempt from there reads it. Its group is then the one numeric field |
| Local.TailColumns | app/api/parsers/local.py:39-51 | the two cases above, for either pattern |
| Local.GreedyFirst | app/api/parsers/local.py:40-42 | whenever the tail has a reading, the first attempt is one too. It ends every group at or after where that reading does, so it comes first in the engine's order |
| Local.TailShift | app/api/parsers/local.py:39-42 | where in a whitespace run the numeric tail starts does not matter |
| Local.TailFrom | app/api/parsers/local.py:39 | lazy `(.*?)`: the first end where the numeric tail can start, and none when none can |
| Local.DateAt | app/api/parsers/local.py:36-37 | the day and month can lie only where the scan finds them |
| Local.TypeAtIs | app/api/parsers/local.py:38 | the type letters can lie only where the scan finds them |
| Local.BodySound | app/api/parsers/local.py:39-42 | the body found is a reading of `\s+(.*?)` and the tail |
| Local.BodyFirst | app/api/parsers/local.py:39-42 | whenever the body can be read it is found, and no reading comes before it |
| Local.Match | app/api/parsers/local.py:34-53 | `pattern.match(l)`: the date prefix the scan finds, the body `Body` finds and the tail's groups at the first attempt's whole runs. `MatchExact` states that this is the engine's first reading |
| Local.MatchSound | app/api/parsers/local.py:34-53 | a match is a reading of the pattern |
| Local.MatchFirst | app/api/parsers/local.py:34-53 | whenever the pattern can match, a match is found, and it is the first reading the engine tries |
| Local.MatchExact | app/api/parsers/local.py:34-53 | the match is the engine's first reading. None exactly when there is no reading |
| Local.MonthCode | app/api/parsers/local.py:55-59 | `month_map.get(name, "01")` on the case-sensitive abbreviations |
| Local.YearText | app/api/parsers/local.py:16 | the year prints as `2023-` |
| Local.DateOf | app/api/parsers/local.py:65-67 | the date is in 2023 with a month from 1 to 12 |
| Local.DateOfText | app/api/parsers/local.py:65-71 | the ISO text is `2023-`, the month code and the day zero-filled. `strptime` accepts it exactly when the date is valid |
| Local.DigitsAndPoints | app/api/parsers/local.py:78 | a numeric field with its commas removed holds only digits and points |
| Local.PointValue | app/api/parsers/local.py:78 | `whole.frac` is at least its whole part |
| Local.FloatTextSplit | app/api/parsers/local.py:78 | the digit-and-point strings `float()` accepts: a digit somewhere and at most one point |
| Local.Float | app/api/parsers/local.py:78 | `float()` succeeds exactly on those strings, never negatively. Otherwise it reports the text |
| Local.FloatOfPoint | app/api/parsers/local.py:78 | digits, a point and digits read as the whole part plus the fraction |
| Local.FloatOf | app/api/parsers/local.py:78-80 | `float(t.replace(",", ""))` succeeds exactly when the text without commas is a number |
| Local.FloatOfCents | app/api/parsers/local.py:78-80 | on a two-decimal token, `float` agrees with the cents reading of the other parsers |
| Local.Debit | app/api/parsers/local.py:78 | a money-out value is never positive once negated |
| Local.AmountOf | app/api/parsers/local.py:77-82 | money out negated first, then money in, then none. The error is from the field that was read |
| Local.Group | app/api/parsers/local.py:74-75 | `m.group(n)` of an amount group: a non-empty `[\d,.]` run when it took part, none otherwise |
| Local.MoneyOut | app/api/parsers/local.py:74 | `m.group(5)`, or the fallback's `m.group(4)`: a `[\d,.]` run when set, and always set in the fallback |
| Local.MoneyIn | app/api/parsers/local.py:75 | `m.group(6)`: a `[\d,.]` run when set |
| Local.WholeRuns | app/api/parsers/local.py:40-42 | in the match: money out is absent only when the line ends after the description's whitespace. Each set group is a whole `[\d,.]` run. Money in is set only after money out, and the balance only after money in |
| Local.MoneyInNeverRecorded | app/api/parsers/local.py:75-82 | in the match the engine settles on, money in is set only when money out is, so the `elif money_in` branch never decides an amount |
| Local.PrimaryOutcome | app/api/parsers/local.py:63-89 | one line of the primary loop: nothing without a match or a valid date, or with neither money out nor money in. Otherwise the record, or the error of the field `float()` rejects |
| Local.FallbackOutcome | app/api/parsers/local.py:94-112 | one line of the fallback loop: nothing without a match or a valid date. Otherwise the record with the amount as money out, or the error of `float()` |
| Local.Outcomes | app/api/parsers/local.py:62-112 | each line's outcome in one pass, in line order |
| Local.Pass | app/api/parsers/local.py:62-112 | one pass: the records of the lines that give one, in line order, or the first line's error |
| Local.Transactions | app/api/parsers/local.py:61-112 | the primary pass's records, or the fallback pass's when the primary pass kept none |
| Local.OutcomeCases | app/api/parsers/local.py:62-89 | a line is skipped exactly for no match, an invalid date or (primary) no money-out group. It fails exactly when money out is a field `float()` rejects |
| Local.OutcomeRecord | app/api/parsers/local.py:62-112 | a record has a valid 2023 date, the stripped lazy description and the negated money-out field |
| Local.PrimaryLine | app/api/parsers/local.py:62-89 | one body of the primary loop |
| Local.FallbackLine | app/api/parsers/local.py:93-112 | one body of the fallback loop |
| Local.PassStep | app/api/parsers/local.py:62-112 | one more line either appends its record or ends the run with its error |
| Local.PassEnd | app/api/parsers/local.py:62-112 | a finished pass returns the records of all lines |
| Local.PrimaryPass | app/api/parsers/local.py:62-89 | the primary loop returns the primary pass |
| Local.FallbackPass | app/api/parsers/local.py:92-112 | the fallback loop returns the fallback pass |
| Local.Parse | app/api/parsers/local.py:62-112 | the primary pass and, only when it kept nothing, the fallback pass |
| Local.PassOrder | app/api/parsers/local.py:62-112 | the j-th record comes from the j-th line that gives one, and every such line gives one |
| Local.PassFails | app/api/parsers/local.py:78-105 | a failed pass reports its first failing line. Every earlier line was read |
| Local.PassRecords | app/api/parsers/local.py:62-112 | every record has a valid 2023 date and an amount that is not positive |
| Local.TransactionsShape | app/api/parsers/local.py:92 | the output is one pass's result. It comes from the fallback pass only when the primary pass kept nothing |
| Text.StripShape | app/api/parsers/parse_pdf_amex.py:50 | `strip` removes exactly the leading and trailing whitespace runs |
| Text.Strip | app/api/parsers/parse_pdf_amex.py:50 | `strip()`: the leading whitespace run, then the trailing one, removed |
| Text.StripUnchanged | app/api/parsers/parse_pdf_amex.py:56 | stripping text without surrounding whitespace changes nothing |
| Text.StripAvoids | app/api/parsers/parse_pdf_amex.py:67 | stripping cannot create a separator |
| Text.Find | app/api/parsers/parse_pdf_amex.py:66-67 | `find`: the first occurrence at or after the start, or none |
| Text.Contains | app/api/parsers/parse_pdf_amex.py:66 | `in`: an occurrence exists |
| Text.SecondField | app/api/parsers/parse_pdf_amex.py:67 | `split(sep)[1]`: the text from after the first separator up to the next one or the end. It holds no separator |
| Text.RFind | app/api/parsers/parse_pdf_cba.py:73 | `rfind`: the last occurrence, or none |
| Text.Join | app/api/parsers/parse_pdf_westpac_credit_card.py:57 | `" ".join`: starts with the first part and ends with the last |
| Text.JoinSnoc | app/api/parsers/parse_pdf_westpac_credit_card.py:57 | joining one more part appends the separator and that part |
| Text.JoinCons | app/api/parsers/parse_pdf_westpac_credit_card.py:57 | joining with a part in front puts that part and the separator before the rest |
| Text.RemoveCommas | app/api/parsers/parse_pdf_anz.py:46 | `replace(",", "")`: no commas remain and every other character is kept |
| Text.RemoveCommasAppend | app/api/parsers/parse_pdf_anz.py:46 | removing commas distributes over concatenation |
| Text.Collapse | app/api/parsers/parse_pdf_westpac.py:60 | `re.sub(r'\s{2,}', ' ', s)`: never longer, empty only for empty text, and no two adjacent whitespace characters |
| Text.CollapseFixed | app/api/parsers/parse_pdf_westpac.py:60 | text without adjacent whitespace is unchanged |
| Text.CollapseIdempotent | app/api/parsers/parse_pdf_westpac.py:60 | collapsing twice is collapsing once |
| Text.CollapseKeepsText | app/api/parsers/parse_pdf_westpac.py:60 | collapsing keeps every visible character, in order |
| Text.ZFill | app/api/parsers/parse_pdf_amex.py:55 | `zfill(width)`: the length is the larger of the text's and the width |
| Text.ZFillIsPad | app/api/parsers/parse_pdf_amex.py:55 | `zfill` of digits is their value printed in that width |
| Text.PadValue | app/api/parsers/parse_pdf_anz.py:44 | printing a digit string's value in its own width gives it back |
| Calendar.DaysInMonth | app/api/parsers/parse_pdf_westpac.py:48 | 28 to 31 days, 29 exactly in a leap February |
| Calendar.IsValid | app/api/parsers/parse_pdf_westpac.py:48 | what `strptime` accepts: year 1 to 9999, month 1 to 12, day 1 to the month's length |
| Calendar.ExpandYear | app/api/parsers/parse_pdf_westpac_credit_card.py:36 | `%y`: the year in 1969-2068 ending in the two digits |
| Calendar.ExpandYearUnique | app/api/parsers/parse_pdf_westpac_credit_card.py:36 | that year is the only one in the window |
| Calendar.Iso | app/api/parsers/parse_pdf_anz.py:44 | `%Y-%m-%d` is ten characters with dashes at 4 and 7 |
| Calendar.IsoOfDigits | app/api/parsers/parse_pdf_anz.py:43-44 | formatting the values of digit fields gives the fields back |
| Calendar.AbbreviationMonth | app/api/parsers/parse_pdf_westpac.py:48 | `%b`: the month whose abbreviation matches ignoring case, and none exactly when no month does |
| Calendar.MonthOrJanuary | app/api/parsers/local.py:66 | `dict.get(name, "01")`: the month whose table entry is the name, January otherwise |
| Calendar.MonthCodesArePadded | app/api/parsers/parse_pdf_amex.py:27-40 | each table code is its month number in two digits |
| Calendar.IsoOfCode | app/api/parsers/parse_pdf_amex.py:59 | a date's ISO text is the padded year, the month's code and the day zero-filled |
| Calendar.AbbreviationsDistinct | app/api/parsers/local.py:55-59 | no two months share an abbreviation |
| Calendar.MonthNamesPrefixFree | app/api/parsers/parse_pdf_amex.py:44 | no full month name begins another |
| Ledger.Cents | app/api/parsers/parse_pdf_anz.py:46-47 | the two-decimal reading has the token's sign |
| Ledger.Somes | app/api/parsers/parse_pdf_cba.py:78-83 | the values of the `Some` entries in order, never more than the entries |
| Ledger.SomesAtPositions | app/api/parsers/parse_pdf_cba.py:78-83 | the j-th appended value comes from the j-th line with one |
| Ledger.Sequence | app/api/parsers/parse_pdf_anz.py:41-62 | the values in order when every entry is `Ok`, as many as the entries, else the first error |
| Ledger.SequenceOk | app/api/parsers/parse_pdf_anz.py:41-59 | the run succeeds exactly when every entry does, entry by entry |
| Ledger.SequenceErr | app/api/parsers/parse_pdf_anz.py:59-62 | a failed run carries the first error |
| Ledger.SequenceStops | app/api/parsers/parse_pdf_anz.py:59-62 | after an error, later entries change nothing |
| Patterns.LazySplit | app/api/parsers/parse_pdf_amex.py:45 | `\s+(.+?)tail` captures a valid split |
| Patterns.LazySplitIsFirst | app/api/parsers/parse_pdf_amex.py:45 | the split found is the engine's first (longest whitespace, then shortest description). None only when there is no split |
| Patterns.FirstSplitFound | app/api/parsers/parse_pdf_anz.py:22 | the engine's split is the one found |
| Patterns.LongestFirstIsFirst | app/api/parsers/parse_pdf_amex.py:45 | backtracking over whitespace lengths finds the engine's first split |
| Patterns.ShortestFromIsFirst | app/api/parsers/parse_pdf_anz.py:22 | lazy expansion finds the first accepted end on the line |
| Patterns.FindAllScanned | app/api/parsers/parse_pdf_cba.py:66 | `findall` is a leftmost, non-overlapping scan |
| Patterns.FindAll | app/api/parsers/parse_pdf_cba.py:66 | `findall`: try each position in turn, take the match that starts there and go on from its end |
| Patterns.ScannedTokens | app/api/parsers/parse_pdf_cba.py:66 | the tokens are matches, in order and not overlapping |
| Patterns.ScannedUnique | app/api/parsers/parse_pdf_cba.py:66 | there is one such scan |
| Patterns.CommaAmountLen | app/api/parsers/parse_pdf_westpac.py:18 | the one match of `[\d,]+\.\d{2}` at a position, if any |
| Patterns.GroupedAmountLen | app/api/parsers/parse_pdf_cba.py:18 | the one match of `-?\d{1,3}(?:,\d{3})*\.\d{2}` (or of the same without `-?`) at a position |
| Patterns.GroupedIsDecimal | app/api/parsers/parse_pdf_cba.py:69-70 | a grouped amount is a two-decimal token |
| Patterns.CommaAmountIsDecimal | app/api/parsers/parse_pdf_westpac.py:53 | a comma amount is an unsigned two-decimal token |

## Left out

- Reading the PDF (`pdfplumber`, `extract_text`, Westpac's page indices 2-4, that is the third to fifth pages, CBA's page loop) and splitting the text into lines. Each parser takes the extracted lines, or the text for ANZ.
- Record ids (`uuid4`), the `json.dumps` output, the command-line check on `sys.argv` and the stderr messages.
- Floating point. Amounts are exact cents, or exact reals for `local.py`. Rounding of `float()` and the printed `-0.0` of a negated zero are not modelled.
- Unicode. `\d` and `isnumeric` are taken as ASCII digits, and lower-casing for `%b` is ASCII only.
- `local.py` has no handler for a field `float()` rejects. The model returns the rejected text as an error, where the script stops with a traceback.
- Amex.Description: states only that the stripped description has no surrounding whitespace. Which text the lazy group captures is stated by Amex.MatchSound.
- Local.DateOf: states only the year and the month's range. Its text, and so `strptime`'s check, is stated by Local.DateOfText.
