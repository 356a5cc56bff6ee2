/**
 * The CSV export of one account: a header, a row for every transaction in the order of
 * the register with the balance after it, and below a split transaction a row for each
 * split with no balance.
 */
module AccountExport {
  import opened Options
  import opened CsvFormat
  import MoneyText

  datatype Split = Split(categoryPath: string, memo: string, amount: int, isTransfer: bool, transferAccountName: string)

  /** Dates are already formatted; amounts are in ten-thousandths. */
  datatype Transaction = Transaction(
    date: string, referenceNumber: string, payeeName: string, categoryPath: string, description: string,
    amount: int, status: string, isSplit: bool, isTransfer: bool, transferAccountName: string, splits: seq<Split>)

  const SPLIT_LABEL := "(Split)"

  const HEADER := ["Date", "Reference Number", "Payee", "Category", "Description", "Amount", "Status",
      "Running Balance"]

  const BALANCE_COLUMN := 7

  function TransferLabel(accountName: string, amount: int): string {
    (if amount < 0 then "Transfer To " else "Transfer From ") + accountName
  }

  /** What a transaction moves the balance by: a void one happened not at all. */
  function Moved(tx: Transaction): int { if tx.status == "VOID" then 0 else tx.amount }

  function SumMoved(txs: seq<Transaction>): int {
    if txs == [] then 0 else SumMoved(txs[..|txs| - 1]) + Moved(txs[|txs| - 1])
  }

  // ----- The table a reader of the export finds -----

  function TransactionFields(classOf: char -> CharClass, tx: Transaction, category: string, balance: int): seq<string> {
    [Guarded(classOf, tx.date), Guarded(classOf, tx.referenceNumber), Guarded(classOf, tx.payeeName),
     Guarded(classOf, category), Guarded(classOf, tx.description),
     MoneyText.Show(tx.amount), Guarded(classOf, tx.status), MoneyText.Show(balance)]
  }

  function SplitCategory(split: Split): string {
    if split.isTransfer then TransferLabel(split.transferAccountName, split.amount) else split.categoryPath
  }

  function SplitFields(classOf: char -> CharClass, split: Split): seq<string> {
    ["", "", "",
     Guarded(classOf, SplitCategory(split)), Guarded(classOf, split.memo), MoneyText.Show(split.amount), "", ""]
  }

  function SplitTable(classOf: char -> CharClass, splits: seq<Split>): (table: seq<seq<string>>)
    ensures |table| == |splits| && forall i :: 0 <= i < |table| ==> table[i] == SplitFields(classOf, splits[i])
  {
    if splits == [] then []
    else SplitTable(classOf, splits[..|splits| - 1]) + [SplitFields(classOf, splits[|splits| - 1])]
  }

  function CategoryLabel(tx: Transaction, expandSplits: bool): string {
    if tx.isSplit && expandSplits then SPLIT_LABEL
    else if tx.isTransfer then TransferLabel(tx.transferAccountName, tx.amount)
    else if tx.isSplit then SPLIT_LABEL
    else tx.categoryPath
  }

  function TransactionTable(classOf: char -> CharClass, tx: Transaction, balance: int,
      expandSplits: bool): seq<seq<string>> {
    [TransactionFields(classOf, tx, CategoryLabel(tx, expandSplits), balance)] +
    if tx.isSplit && expandSplits then SplitTable(classOf, tx.splits) else []
  }

  /** How one transaction and the balance after it are listed. */
  type Lister = (Transaction, int) -> seq<seq<string>>

  function ListerOf(classOf: char -> CharClass, expandSplits: bool): Lister {
    (tx, balance) => TransactionTable(classOf, tx, balance, expandSplits)
  }

  /** All transactions listed, each with the opening balance and everything moved so far. */
  function Listing(list: Lister, opening: int, txs: seq<Transaction>): seq<seq<string>> {
    if txs == [] then []
    else
      var last := |txs| - 1;
      Listing(list, opening, txs[..last]) + list(txs[last], opening + SumMoved(txs))
  }

  function ExportTable(classOf: char -> CharClass, opening: int, txs: seq<Transaction>,
      expandSplits: bool): seq<seq<string>> {
    [HEADER] + Listing(ListerOf(classOf, expandSplits), opening, txs)
  }

  // ----- What a reader finds under the header -----

  /** Under the column so named, the row has this. */
  ghost predicate Reads(row: seq<string>, column: string, value: string) {
    |row| == |HEADER| && exists c :: 0 <= c < |HEADER| && HEADER[c] == column && row[c] == value
  }

  lemma RowReads(date: string, referenceNumber: string, payee: string, category: string, description: string,
      amount: string, status: string, balance: string, row: seq<string>)
    requires row == [date, referenceNumber, payee, category, description, amount, status, balance]
    ensures HEADER == ["Date", "Reference Number", "Payee", "Category", "Description", "Amount", "Status",
                       "Running Balance"]
    ensures Reads(row, "Date", date) && Reads(row, "Reference Number", referenceNumber) && Reads(row, "Payee", payee)
    ensures Reads(row, "Category", category) && Reads(row, "Description", description) && Reads(row, "Amount", amount)
    ensures Reads(row, "Status", status) && Reads(row, "Running Balance", balance)
  {
    assert HEADER[0] == "Date" && row[0] == date;
    assert HEADER[1] == "Reference Number" && row[1] == referenceNumber;
    assert HEADER[2] == "Payee" && row[2] == payee;
    assert HEADER[3] == "Category" && row[3] == category;
    assert HEADER[4] == "Description" && row[4] == description;
    assert HEADER[5] == "Amount" && row[5] == amount;
    assert HEADER[6] == "Status" && row[6] == status;
    assert HEADER[7] == "Running Balance" && row[7] == balance;
  }

  /** The texts of a transaction, guarded, and its amounts, each under its own name. */
  ghost predicate TransactionIsRead(classOf: char -> CharClass, row: seq<string>, tx: Transaction, category: string,
      balance: int) {
    && Reads(row, "Date", Guarded(classOf, tx.date))
    && Reads(row, "Reference Number", Guarded(classOf, tx.referenceNumber))
    && Reads(row, "Payee", Guarded(classOf, tx.payeeName)) && Reads(row, "Category", Guarded(classOf, category))
    && Reads(row, "Description", Guarded(classOf, tx.description))
    && Reads(row, "Amount", MoneyText.Show(tx.amount)) && Reads(row, "Status", Guarded(classOf, tx.status))
    && Reads(row, "Running Balance", MoneyText.Show(balance))
  }

  /** Of a split its category, or the label of its transfer, its memo and amount; the rest is empty. */
  ghost predicate SplitIsRead(classOf: char -> CharClass, row: seq<string>, split: Split) {
    var category := if split.isTransfer then TransferLabel(split.transferAccountName, split.amount)
                    else split.categoryPath;
    && Reads(row, "Date", "") && Reads(row, "Reference Number", "") && Reads(row, "Payee", "")
    && Reads(row, "Category", Guarded(classOf, category)) && Reads(row, "Description", Guarded(classOf, split.memo))
    && Reads(row, "Amount", MoneyText.Show(split.amount)) && Reads(row, "Status", "")
    && Reads(row, "Running Balance", "")
  }

  /** The label of a transfer names the other account and the direction, and gives both back. */
  lemma TransferLabelExactly(name: string, amount: int, other: string, opposite: int)
    ensures amount < 0 ==> TransferLabel(name, amount) == "Transfer To " + name
    ensures amount >= 0 ==> TransferLabel(name, amount) == "Transfer From " + name
    ensures TransferLabel(name, amount) == TransferLabel(other, opposite) <==>
            name == other && (amount < 0 <==> opposite < 0)
  {
    var here, there := TransferLabel(name, amount), TransferLabel(other, opposite);
    assert here[9] == if amount < 0 then 'T' else 'F';
    assert there[9] == if opposite < 0 then 'T' else 'F';
    assert name == here[if amount < 0 then 12 else 14..];
    assert other == there[if opposite < 0 then 12 else 14..];
  }

  lemma SplitFieldsAreRead(classOf: char -> CharClass, split: Split)
    ensures SplitIsRead(classOf, SplitFields(classOf, split), split)
  {
    RowReads("", "", "", Guarded(classOf, SplitCategory(split)), Guarded(classOf, split.memo),
        MoneyText.Show(split.amount), "", "", SplitFields(classOf, split));
  }

  lemma TransactionFieldsAreRead(classOf: char -> CharClass, tx: Transaction, category: string, balance: int)
    ensures TransactionIsRead(classOf, TransactionFields(classOf, tx, category, balance), tx, category, balance)
  {
    RowReads(Guarded(classOf, tx.date), Guarded(classOf, tx.referenceNumber), Guarded(classOf, tx.payeeName),
        Guarded(classOf, category), Guarded(classOf, tx.description), MoneyText.Show(tx.amount),
        Guarded(classOf, tx.status), MoneyText.Show(balance), TransactionFields(classOf, tx, category, balance));
  }

  ghost predicate SplitsAreRead(classOf: char -> CharClass, table: seq<seq<string>>, splits: seq<Split>) {
    |table| == |splits| && forall i :: 0 <= i < |splits| ==> SplitIsRead(classOf, table[i], splits[i])
  }

  lemma SplitTableIsRead(classOf: char -> CharClass, splits: seq<Split>)
    ensures SplitsAreRead(classOf, SplitTable(classOf, splits), splits)
  {
    var table := SplitTable(classOf, splits);
    forall i | 0 <= i < |splits| ensures SplitIsRead(classOf, table[i], splits[i]) {
      SplitFieldsAreRead(classOf, splits[i]);
    }
  }

  /** The label of a transfer goes before "(Split)", unless the splits are listed below. */
  lemma CategoryExactly(tx: Transaction, expandSplits: bool)
    ensures CategoryLabel(tx, expandSplits) ==
            if tx.isTransfer && !(tx.isSplit && expandSplits) then TransferLabel(tx.transferAccountName, tx.amount)
            else if tx.isSplit then "(Split)" else tx.categoryPath
  {}

  /** A transaction is listed on a row of its own and, where it is split and to be expanded, its splits below it. */
  lemma TransactionIsListed(classOf: char -> CharClass, tx: Transaction, balance: int, expandSplits: bool)
    ensures var table := TransactionTable(classOf, tx, balance, expandSplits);
            && table != [] && TransactionIsRead(classOf, table[0], tx, CategoryLabel(tx, expandSplits), balance)
            && SplitsAreRead(classOf, table[1..], if tx.isSplit && expandSplits then tx.splits else [])
  {
    var table := TransactionTable(classOf, tx, balance, expandSplits);
    TransactionFieldsAreRead(classOf, tx, CategoryLabel(tx, expandSplits), balance);
    SplitTableIsRead(classOf, tx.splits);
    assert table[1..] == if tx.isSplit && expandSplits then SplitTable(classOf, tx.splits) else [];
  }

  // ----- The export -----

  method CsvRow(classOf: char -> CharClass, date: string, referenceNumber: string, payee: string, category: string,
                description: string, amount: int, status: string, runningBalance: Option<int>)
    returns (row: string)
    ensures row == Row([Guarded(classOf, date), Guarded(classOf, referenceNumber), Guarded(classOf, payee),
                        Guarded(classOf, category), Guarded(classOf, description),
                        MoneyText.Show(amount), Guarded(classOf, status),
                        if runningBalance.None? then "" else MoneyText.Show(runningBalance.value)])
  {
    var f0 := EscapeCsv(classOf, date);
    var f1 := EscapeCsv(classOf, referenceNumber);
    var f2 := EscapeCsv(classOf, payee);
    var f3 := EscapeCsv(classOf, category);
    var f4 := EscapeCsv(classOf, description);
    var f6 := EscapeCsv(classOf, status);
    var balance := if runningBalance.None? then "" else MoneyText.Show(runningBalance.value);
    row := Joined([f0, f1, f2, f3, f4, MoneyText.Show(amount), f6, balance], ',');
    ShownIsPlain(amount);
    if runningBalance.Some? { ShownIsPlain(runningBalance.value); }
    EightQuoted(Guarded(classOf, date), Guarded(classOf, referenceNumber), Guarded(classOf, payee),
        Guarded(classOf, category),
                Guarded(classOf, description), MoneyText.Show(amount), Guarded(classOf, status), balance);
  }

  lemma EightQuoted(a: string, b: string, c: string, d: string, e: string, f: string, g: string, h: string)
    ensures Row([a, b, c, d, e, f, g, h]) ==
            Joined([Quoted(a), Quoted(b), Quoted(c), Quoted(d), Quoted(e), Quoted(f), Quoted(g), Quoted(h)], ',')
  {
    var fields := [a, b, c, d, e, f, g, h];
    assert QuotedAll(fields) == [Quoted(a), Quoted(b), Quoted(c), Quoted(d), Quoted(e), Quoted(f), Quoted(g),
           Quoted(h)];
  }

  lemma ShownIsPlain(amount: int)
    ensures IsPlain(MoneyText.Show(amount)) && Quoted(MoneyText.Show(amount)) == MoneyText.Show(amount)
  {
    MoneyText.ShowReads(amount);
  }

  lemma {:induction false} RowsOfSum(a: seq<seq<string>>, b: seq<seq<string>>)
    ensures Rows(a + b) == Rows(a) + Rows(b)
  {
    if a == [] {
      assert a + b == b;
    } else {
      assert (a + b)[0] == a[0] && (a + b)[1..] == a[1..] + b;
      RowsOfSum(a[1..], b);
    }
  }

  lemma RowsOfOneMore(a: seq<seq<string>>, fields: seq<string>)
    ensures Rows(a + [fields]) == Rows(a) + [Row(fields)]
  {
    RowsOfSum(a, [fields]);
    assert [fields][1..] == [];
  }

  method SplitRows(classOf: char -> CharClass, splits: seq<Split>) returns (rows: seq<string>)
    ensures rows == Rows(SplitTable(classOf, splits))
  {
    rows := [];
    for k := 0 to |splits|
      invariant rows == Rows(SplitTable(classOf, splits[..k]))
    {
      var split := splits[k];
      var categoryLabel := if split.isTransfer then TransferLabel(split.transferAccountName, split.amount)
          else split.categoryPath;
      var row := CsvRow(classOf, "", "", "", categoryLabel, split.memo, split.amount, "", None);
      assert categoryLabel == SplitCategory(split);
      SplitRowIs(classOf, split);
      assert splits[..k + 1][..k] == splits[..k];
      RowsOfOneMore(SplitTable(classOf, splits[..k]), SplitFields(classOf, split));
      rows := rows + [row];
    }
    assert splits[..|splits|] == splits;
  }

  lemma SplitRowIs(classOf: char -> CharClass, split: Split)
    ensures [Guarded(classOf, ""), Guarded(classOf, ""), Guarded(classOf, ""), Guarded(classOf, SplitCategory(split)),
             Guarded(classOf, split.memo), MoneyText.Show(split.amount), Guarded(classOf, ""), ""] ==
            SplitFields(classOf, split)
  {}

  /** The rows of one transaction, with the balance after it. */
  method TransactionRows(classOf: char -> CharClass, tx: Transaction, balance: int,
      expandSplits: bool) returns (rows: seq<string>)
    ensures rows == Rows(ListerOf(classOf, expandSplits)(tx, balance))
  {
    ghost var fields := TransactionFields(classOf, tx, CategoryLabel(tx, expandSplits), balance);
    RowsOfOneMore([], fields);
    assert [] + [fields] == [fields];
    if tx.isSplit && expandSplits {
      var row := CsvRow(classOf, tx.date, tx.referenceNumber, tx.payeeName, SPLIT_LABEL, tx.description,
                        tx.amount, tx.status, Some(balance));
      var splitRows := SplitRows(classOf, tx.splits);
      RowsOfSum([fields], SplitTable(classOf, tx.splits));
      rows := [row] + splitRows;
    } else {
      var categoryLabel := if tx.isTransfer then TransferLabel(tx.transferAccountName, tx.amount)
                           else if tx.isSplit then SPLIT_LABEL else tx.categoryPath;
      var row := CsvRow(classOf, tx.date, tx.referenceNumber, tx.payeeName, categoryLabel, tx.description,
                        tx.amount, tx.status, Some(balance));
      rows := [row];
      assert TransactionTable(classOf, tx, balance, expandSplits) == [fields];
    }
  }

  /**
   * The text a reader of section 2 of RFC 4180 takes apart into exactly the table of the
   * account: the balance beside each transaction is the opening balance and everything
   * moved so far, whatever commas, quotes and line breaks the texts hold.
   */
  method ExportCsv(classOf: char -> CharClass, opening: int, txs: seq<Transaction>,
      expandSplits: bool) returns (text: string)
    ensures Parse(text) == Some(ExportTable(classOf, opening, txs, expandSplits))
  {
    var head := CsvHeader();
    var rows := PushTransactions(head, classOf, opening, txs, expandSplits);
    text := Joined(rows, '\n');
    ExportParses(head, classOf, opening, txs, expandSplits);
  }

  /** The header, then each transaction's rows behind it, with the balance carried along. */
  method PushTransactions(head: string, classOf: char -> CharClass, opening: int, txs: seq<Transaction>,
      expandSplits: bool)
    returns (rows: seq<string>)
    ensures rows == Printed(head, Listing(ListerOf(classOf, expandSplits), opening, txs))
  {
    ghost var list := ListerOf(classOf, expandSplits);
    ghost var listed: seq<seq<string>> := [];
    rows := [head];
    var runningBalance := opening;
    for k := 0 to |txs|
      invariant runningBalance == opening + SumMoved(txs[..k])
      invariant listed == Listing(list, opening, txs[..k]) && rows == Printed(head, listed)
    {
      var tx := txs[k];
      if tx.status != "VOID" {
        runningBalance := runningBalance + tx.amount;
      }
      ListingGrows(list, opening, txs, k, runningBalance);
      PrintedGrows(head, listed, list(tx, runningBalance));
      var added := TransactionRows(classOf, tx, runningBalance, expandSplits);
      rows := rows + added;
      listed := listed + list(tx, runningBalance);
    }
    assert txs[..|txs|] == txs;
  }

  lemma ExportParses(head: string, classOf: char -> CharClass, opening: int, txs: seq<Transaction>, expandSplits: bool)
    requires head == Row(HEADER)
    ensures Parse(Joined(Printed(head, Listing(ListerOf(classOf, expandSplits), opening, txs)), '\n')) ==
            Some(ExportTable(classOf, opening, txs, expandSplits))
  {
    var list := ListerOf(classOf, expandSplits);
    ListerFits(classOf, expandSplits);
    ListingFits(list, opening, txs);
    TableParses(head, HEADER, Listing(list, opening, txs));
  }

  /** The rows of the file. */
  function Printed(head: string, listed: seq<seq<string>>): seq<string> { [head] + Rows(listed) }

  lemma PrintedGrows(head: string, listed: seq<seq<string>>, added: seq<seq<string>>)
    ensures Printed(head, listed + added) == Printed(head, listed) + Rows(added)
  {
    RowsOfSum(listed, added);
  }

  lemma TableParses(head: string, header: seq<string>, listed: seq<seq<string>>)
    requires IsWide(listed) && header != [] && head == Row(header)
    ensures Parse(Joined(Printed(head, listed), '\n')) == Some([header] + listed)
  {
    RowsOfOneMore([], header);
    assert [] + [header] == [header];
    RowsOfSum([header], listed);
    ParseUndoesText([header] + listed);
  }

  lemma FirstWordsArePlain()
    ensures IsPlain("Date") && IsPlain("Reference Number") && IsPlain("Payee") && IsPlain("Category")
  {}

  lemma LastWordsArePlain()
    ensures IsPlain("Description") && IsPlain("Amount") && IsPlain("Status") && IsPlain("Running Balance")
  {}

  /** The header needs no quotes: it is printed as it stands. */
  method CsvHeader() returns (row: string)
    ensures row == Row(HEADER)
  {
    row := Joined(["Date", "Reference Number", "Payee", "Category", "Description", "Amount", "Status",
        "Running Balance"], ',');
    FirstWordsArePlain();
    LastWordsArePlain();
    EightQuoted("Date", "Reference Number", "Payee", "Category", "Description", "Amount", "Status", "Running Balance");
  }

  lemma ListingGrows(list: Lister, opening: int, txs: seq<Transaction>, k: nat, balance: int)
    requires k < |txs| && balance == opening + SumMoved(txs[..k]) + Moved(txs[k])
    ensures SumMoved(txs[..k + 1]) == SumMoved(txs[..k]) + Moved(txs[k])
    ensures Listing(list, opening, txs[..k + 1]) == Listing(list, opening, txs[..k]) + list(txs[k], balance)
  {
    assert txs[..k + 1][..k] == txs[..k];
  }

  /** Every row has all columns. */
  ghost predicate Fits(list: Lister) {
    forall tx: Transaction, balance: int :: IsWide(list(tx, balance))
  }

  ghost predicate IsWide(table: seq<seq<string>>) {
    forall i :: 0 <= i < |table| ==> |table[i]| == BALANCE_COLUMN + 1
  }

  lemma {:induction false} ListingFits(list: Lister, opening: int, txs: seq<Transaction>)
    requires Fits(list)
    ensures IsWide(Listing(list, opening, txs))
  {
    if txs == [] {
    } else {
      ListingFits(list, opening, txs[..|txs| - 1]);
      assert IsWide(list(txs[|txs| - 1], opening + SumMoved(txs)));
    }
  }

  lemma ListerFits(classOf: char -> CharClass, expandSplits: bool)
    ensures Fits(ListerOf(classOf, expandSplits))
  {
    forall tx: Transaction, balance: int ensures IsWide(ListerOf(classOf, expandSplits)(tx, balance)) {}
  }

  // ----- What the balances say -----

  /** The balances a reader finds, row by row, where there is one. */
  function ReadBalances(rows: seq<seq<string>>): seq<int>
    requires IsWide(rows)
  {
    if rows == [] then []
    else
      var last := rows[|rows| - 1][BALANCE_COLUMN];
      ReadBalances(rows[..|rows| - 1]) + if last == "" then [] else [MoneyText.ReadMoney(last)]
  }

  lemma {:induction false} BalancesOfSum(a: seq<seq<string>>, b: seq<seq<string>>)
    requires IsWide(a)
    requires IsWide(b)
    ensures ReadBalances(a + b) == ReadBalances(a) + ReadBalances(b)
  {
    if b == [] {
      assert a + b == a;
    } else {
      assert (a + b)[..|a + b| - 1] == a + b[..|b| - 1];
      BalancesOfSum(a, b[..|b| - 1]);
    }
  }

  lemma {:induction false} SplitsHaveNoBalance(classOf: char -> CharClass, splits: seq<Split>)
    ensures ReadBalances(SplitTable(classOf, splits)) == []
  {
    if splits == [] {
    } else {
      SplitsHaveNoBalance(classOf, splits[..|splits| - 1]);
    }
  }

  lemma BalanceOfRow(fields: seq<string>, balance: int)
    requires |fields| == BALANCE_COLUMN + 1 && fields[BALANCE_COLUMN] == MoneyText.Show(balance)
    ensures ReadBalances([fields]) == [balance]
  {
    MoneyText.ShowReads(balance);
    ShownIsNotEmpty(balance);
    assert [fields][..0] == [];
  }

  lemma BalanceAboveSplits(fields: seq<string>, balance: int, splits: seq<seq<string>>)
    requires |fields| == BALANCE_COLUMN + 1 && fields[BALANCE_COLUMN] == MoneyText.Show(balance)
    requires IsWide(splits) && ReadBalances(splits) == []
    ensures IsWide([fields] + splits) && ReadBalances([fields] + splits) == [balance]
  {
    BalanceOfRow(fields, balance);
    BalancesOfSum([fields], splits);
  }

  lemma BalanceOfTransaction(classOf: char -> CharClass, tx: Transaction, balance: int, expandSplits: bool)
    ensures ReadsOne(TransactionTable(classOf, tx, balance, expandSplits), balance)
  {
    var fields := TransactionFields(classOf, tx, CategoryLabel(tx, expandSplits), balance);
    if tx.isSplit && expandSplits {
      SplitsHaveNoBalance(classOf, tx.splits);
      BalanceAboveSplits(fields, balance, SplitTable(classOf, tx.splits));
    } else {
      BalanceAboveSplits(fields, balance, []);
    }
  }

  lemma ShownIsNotEmpty(amount: int)
    ensures MoneyText.Show(amount) != ""
  {
    MoneyText.WholeReads((if amount < 0 then -amount else amount) / 10000);
  }

  /** The transactions that happened. */
  function NotVoid(txs: seq<Transaction>): seq<Transaction> {
    if txs == [] then []
    else NotVoid(txs[..|txs| - 1]) + if txs[|txs| - 1].status == "VOID" then [] else [txs[|txs| - 1]]
  }

  function SumAmounts(txs: seq<Transaction>): int {
    if txs == [] then 0 else SumAmounts(txs[..|txs| - 1]) + txs[|txs| - 1].amount
  }

  /** What all moved is the sum of the amounts of those that are not void. */
  lemma {:induction false} SumMovedExactly(txs: seq<Transaction>)
    ensures SumMoved(txs) == SumAmounts(NotVoid(txs))
  {
    if txs == [] {
    } else {
      var init, last := txs[..|txs| - 1], txs[|txs| - 1];
      SumMovedExactly(init);
      assert (NotVoid(init) + [last])[..|NotVoid(init)|] == NotVoid(init);
      assert NotVoid(init) + [] == NotVoid(init);
    }
  }

  /** The balance after each transaction. */
  function RunningBalances(opening: int, txs: seq<Transaction>): (balances: seq<int>)
    ensures |balances| == |txs|
  {
    if txs == [] then [] else RunningBalances(opening, txs[..|txs| - 1]) + [opening + SumMoved(txs)]
  }

  /** It is the opening balance and what all transactions up to there moved. */
  lemma {:induction false} RunningBalanceAt(opening: int, txs: seq<Transaction>, k: nat)
    requires k < |txs|
    ensures RunningBalances(opening, txs)[k] == opening + SumAmounts(NotVoid(txs[..k + 1]))
  {
    var last := |txs| - 1;
    SumMovedExactly(txs[..k + 1]);
    if k < last {
      RunningBalanceAt(opening, txs[..last], k);
      assert txs[..last][..k + 1] == txs[..k + 1];
    } else {
      assert txs[..k + 1] == txs;
    }
  }

  /** Each transaction is listed with one balance, its own. */
  ghost predicate ListsBalance(list: Lister)
    requires Fits(list)
  {
    forall tx: Transaction, balance: int :: ReadsOne(list(tx, balance), balance)
  }

  ghost predicate ReadsOne(table: seq<seq<string>>, balance: int) {
    IsWide(table) && ReadBalances(table) == [balance]
  }

  lemma {:induction false} ListingBalances(list: Lister, opening: int, txs: seq<Transaction>)
    requires Fits(list) && ListsBalance(list)
    ensures IsWide(Listing(list, opening, txs))
    ensures ReadBalances(Listing(list, opening, txs)) == RunningBalances(opening, txs)
  {
    ListingFits(list, opening, txs);
    if txs == [] {
    } else {
      var last := |txs| - 1;
      var earlier, added := Listing(list, opening, txs[..last]), list(txs[last], opening + SumMoved(txs));
      ListingBalances(list, opening, txs[..last]);
      assert ReadsOne(added, opening + SumMoved(txs));
      BalancesOfSum(earlier, added);
    }
  }

  /**
   * Below the header a reader finds one balance per transaction, in order, each the
   * opening balance and what all transactions up to there moved.
   */
  lemma BalancesAreRunning(classOf: char -> CharClass, opening: int, txs: seq<Transaction>, expandSplits: bool)
    ensures IsWide(ExportTable(classOf, opening, txs, expandSplits)[1..])
    ensures ReadBalances(ExportTable(classOf, opening, txs, expandSplits)[1..]) == RunningBalances(opening, txs)
  {
    var list := ListerOf(classOf, expandSplits);
    ListerFits(classOf, expandSplits);
    forall tx: Transaction, balance: int ensures ReadsOne(list(tx, balance), balance) {
      BalanceOfTransaction(classOf, tx, balance, expandSplits);
    }
    ListingBalances(list, opening, txs);
    assert ExportTable(classOf, opening, txs, expandSplits)[1..] == Listing(list, opening, txs);
  }
}
