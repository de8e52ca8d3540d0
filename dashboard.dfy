/**
 * The account dashboard page: the balance, the transaction history, the transfer
 * and deposit forms with their validation, and the initials shown in the avatar.
 * Amount inputs are held as the number `parseFloat` reads from them, `None`
 * standing for `NaN` (an empty or non-numeric input).
 */
module Dashboard {
  import opened Wrappers
  import opened Text

  /** One line of the transaction history. */
  datatype Entry =
    | Sent(amount: real, recipient: string)
    | Received(amount: real, sender: string)
    | Paid(amount: real, payee: string)
    | Deposited(amount: real)

  /** The history the page opens with. */
  const InitialHistory: seq<Entry> :=
    [Sent(200.0, "Alice"), Received(500.0, "Bob"), Paid(50.0, "Electricity Bill")]

  const MissingName: string := "Please enter the name."
  const InvalidAmount: string := "Please enter a valid amount greater than 0."
  const InsufficientBalance: string := "Insufficient balance! Please deposit more funds."
  const InvalidDeposit: string := "Please enter a valid deposit amount greater than 0."

  /**
   * The checks of a transfer, in the order the form makes them: a recipient,
   * then a positive amount, then enough balance. `None` lets the transfer through.
   */
  function TransferRejection(recipient: string, amount: Option<real>, balance: real): (r: Option<string>)
    ensures r.None? <==> recipient != "" && amount.Some? && 0.0 < amount.value <= balance
    ensures recipient == "" ==> r == Some(MissingName)
    ensures recipient != "" && (amount.None? || amount.value <= 0.0) ==> r == Some(InvalidAmount)
    ensures recipient != "" && amount.Some? && 0.0 < amount.value && balance < amount.value ==> r == Some(InsufficientBalance)
  {
    if recipient == "" then Some(MissingName)
    else if amount.None? || amount.value <= 0.0 then Some(InvalidAmount)
    else if amount.value > balance then Some(InsufficientBalance)
    else None
  }

  /** The check of a deposit: a positive amount. */
  function DepositRejection(amount: Option<real>): (r: Option<string>)
    ensures r.None? <==> amount.Some? && amount.value > 0.0
    ensures r.Some? ==> r.value == InvalidDeposit
  {
    if amount.None? || amount.value <= 0.0 then Some(InvalidDeposit) else None
  }

  /** The state of the page. The balance never goes below zero. */
  class Account {
    var balance: real
    var transactions: seq<Entry>
    var recipient: string
    var amount: Option<real>
    var depositAmount: Option<real>
    var transferError: string
    var depositError: string

    ghost predicate Valid()
      reads this
    {
      balance >= 0.0
    }

    /** The page opens with a zero balance, the sample history and empty inputs. */
    constructor ()
      ensures Valid()
      ensures balance == 0.0 && transactions == InitialHistory
      ensures recipient == "" && amount == None && depositAmount == None
      ensures transferError == "" && depositError == ""
    {
      balance := 0.0;
      transactions := InitialHistory;
      recipient := "";
      amount := None;
      depositAmount := None;
      transferError := "";
      depositError := "";
    }

    method SetRecipient(name: string)
      modifies this
      ensures recipient == name
      ensures balance == old(balance) && transactions == old(transactions)
      ensures amount == old(amount) && depositAmount == old(depositAmount)
      ensures transferError == old(transferError) && depositError == old(depositError)
    {
      recipient := name;
    }

    method SetAmount(value: Option<real>)
      modifies this
      ensures amount == value
      ensures balance == old(balance) && transactions == old(transactions)
      ensures recipient == old(recipient) && depositAmount == old(depositAmount)
      ensures transferError == old(transferError) && depositError == old(depositError)
    {
      amount := value;
    }

    method SetDepositAmount(value: Option<real>)
      modifies this
      ensures depositAmount == value
      ensures balance == old(balance) && transactions == old(transactions)
      ensures recipient == old(recipient) && amount == old(amount)
      ensures transferError == old(transferError) && depositError == old(depositError)
    {
      depositAmount := value;
    }

    /**
     * `handleTransfer`: a rejected transfer only shows its error; an accepted one
     * debits the balance by the amount, puts a `Sent` entry in front of the
     * history and clears both inputs.
     */
    method HandleTransfer()
      requires Valid()
      modifies this
      ensures Valid()
      ensures var rejection := TransferRejection(old(recipient), old(amount), old(balance));
        if rejection.Some? then
          && transferError == rejection.value
          && balance == old(balance) && transactions == old(transactions)
          && recipient == old(recipient) && amount == old(amount)
        else
          && balance == old(balance) - old(amount).value
          && transactions == [Sent(old(amount).value, old(recipient))] + old(transactions)
          && recipient == "" && amount == None
          && transferError == old(transferError)
      ensures depositAmount == old(depositAmount) && depositError == old(depositError)
    {
      if recipient == "" {
        transferError := MissingName;
        return;
      }
      if amount.None? || amount.value <= 0.0 {
        transferError := InvalidAmount;
        return;
      }
      var amt := amount.value;
      if amt > balance {
        transferError := InsufficientBalance;
        return;
      }
      balance := balance - amt;
      transactions := [Sent(amt, recipient)] + transactions;
      recipient := "";
      amount := None;
    }

    /**
     * `handleDeposit`: a rejected deposit only shows its error; an accepted one
     * credits the balance, puts a `Deposited` entry in front of the history and
     * clears the input.
     */
    method HandleDeposit()
      requires Valid()
      modifies this
      ensures Valid()
      ensures var rejection := DepositRejection(old(depositAmount));
        if rejection.Some? then
          && depositError == rejection.value
          && balance == old(balance) && transactions == old(transactions)
          && depositAmount == old(depositAmount)
        else
          && balance == old(balance) + old(depositAmount).value
          && transactions == [Deposited(old(depositAmount).value)] + old(transactions)
          && depositAmount == None
          && depositError == old(depositError)
      ensures recipient == old(recipient) && amount == old(amount) && transferError == old(transferError)
    {
      if depositAmount.None? || depositAmount.value <= 0.0 {
        depositError := InvalidDeposit;
        return;
      }
      var amt := depositAmount.value;
      balance := balance + amt;
      transactions := [Deposited(amt)] + transactions;
      depositAmount := None;
    }
  }

  /** Index of the first whitespace character of `s`, or `|s|` when there is none. */
  function FirstSpace(s: string): (i: nat)
    ensures i <= |s|
    ensures forall k :: 0 <= k < i ==> !IsSpace(s[k])
    ensures i < |s| ==> IsSpace(s[i])
  {
    if s == [] || IsSpace(s[0]) then 0 else 1 + FirstSpace(s[1..])
  }

  predicate NoSpace(w: string) {
    forall j :: 0 <= j < |w| ==> !IsSpace(w[j])
  }

  /**
   * `split(/\s+/)`: the pieces of `s` between maximal runs of whitespace. A
   * leading or trailing run yields an empty first or last piece, and the empty
   * string yields one empty piece.
   */
  function SplitWs(s: string): (r: seq<string>)
    ensures |r| >= 1
    ensures forall k :: 0 <= k < |r| ==> NoSpace(r[k])
    decreases |s|
  {
    var i := FirstSpace(s);
    if i == |s| then [s]
    else
      var rest := TrimStart(s[i..]);
      assert |rest| < |s[i..]|;
      [s[..i]] + SplitWs(rest)
  }

  /** Trimming the front of a string that ends in a non-space keeps that end and leaves a trimmed string. */
  lemma {:induction false} TrimStartKeepsEnd(t: string)
    requires t != [] && !IsSpace(t[|t| - 1])
    ensures var r := TrimStart(t); r != [] && r[|r| - 1] == t[|t| - 1] && IsTrimmed(r)
    decreases |t|
  {
    if IsSpace(t[0]) {
      assert |t| != 1;
      var u := t[1..];
      assert u[|u| - 1] == t[|t| - 1];
      TrimStartKeepsEnd(u);
      assert TrimStart(t) == TrimStart(u);
    } else {
      assert TrimStart(t) == t;
    }
  }

  /** Putting a non-empty word in front of non-empty words gives non-empty words. */
  lemma ConsWords(w: string, ws: seq<string>)
    requires w != "" && forall k :: 0 <= k < |ws| ==> ws[k] != ""
    ensures forall k :: 0 <= k < |[w] + ws| ==> ([w] + ws)[k] != ""
  {
  }

  /** In a trimmed string every piece is a word: none is empty. */
  lemma {:induction false} SplitTrimmedWords(s: string)
    requires IsTrimmed(s) && s != ""
    ensures forall k :: 0 <= k < |SplitWs(s)| ==> SplitWs(s)[k] != ""
    decreases |s|
  {
    var i := FirstSpace(s);
    if i < |s| {
      var t := s[i..];
      assert t[|t| - 1] == s[|s| - 1];
      TrimStartKeepsEnd(t);
      var rest := TrimStart(t);
      SplitTrimmedWords(rest);
      assert s[..i] != "";
      ConsWords(s[..i], SplitWs(rest));
    }
  }

  /** The avatar letter for one word: its first character upper-cased, or nothing for an empty word. */
  function Initial(word: string): (r: string)
    ensures |r| <= 1
    ensures word != "" ==> r == [UpperChar(word[0])]
    ensures word == "" ==> r == ""
  {
    if word == "" then "" else [UpperChar(word[0])]
  }

  /** The initials of the words, one letter each, joined. */
  function JoinInitials(words: seq<string>): (r: string)
    ensures |r| <= |words|
    ensures (forall k :: 0 <= k < |words| ==> words[k] != "") ==> |r| == |words|
    ensures (forall k :: 0 <= k < |words| ==> words[k] != "") ==>
      forall k :: 0 <= k < |words| ==> r[k] == UpperChar(words[k][0])
    ensures forall k :: 0 <= k < |r| ==> !IsLowerAscii(r[k])
  {
    if words == [] then "" else Initial(words[0]) + JoinInitials(words[1..])
  }

  const DefaultName: string := "Zihan Rashid"

  /**
   * The name the avatar is built from: the user's, or the default when it is
   * missing or empty, trimmed. The default has no surrounding whitespace, so
   * trimming leaves it as it is.
   */
  function DisplayName(name: Option<string>): (r: string)
    ensures IsTrimmed(r)
    ensures r == Trim(if name.None? || name.value == "" then DefaultName else name.value)
    ensures name.None? || name.value == "" ==> r == DefaultName
  {
    if name.None? || name.value == "" then
      TrimOfTrimmed(DefaultName);
      DefaultName
    else Trim(name.value)
  }

  /** The words of a non-empty display name are all non-empty. */
  lemma NameWords(name: Option<string>)
    ensures DisplayName(name) != "" ==>
      forall k :: 0 <= k < |SplitWs(DisplayName(name))| ==> SplitWs(DisplayName(name))[k] != ""
  {
    if DisplayName(name) != "" {
      SplitTrimmedWords(DisplayName(name));
    }
  }

  /**
   * `initials`: the upper-cased first letters of the first three words of the
   * trimmed name. There are at most three and none of them is a lower-case letter.
   */
  function Initials(name: Option<string>): (r: string)
    ensures |r| <= 3
    ensures forall k :: 0 <= k < |r| ==> !IsLowerAscii(r[k])
  {
    var words := SplitWs(DisplayName(name));
    var n := if |words| < 3 then |words| else 3;
    assert |words[..n]| == n;
    JoinInitials(words[..n])
  }

  /** The initials of the first (up to three) of some non-empty words are their first letters. */
  lemma FirstThreeInitials(words: seq<string>)
    requires forall k :: 0 <= k < |words| ==> words[k] != ""
    ensures var n := if |words| < 3 then |words| else 3;
      |JoinInitials(words[..n])| == n
      && forall k :: 0 <= k < n ==> JoinInitials(words[..n])[k] == UpperChar(words[k][0])
  {
    var n := if |words| < 3 then |words| else 3;
    assert forall k :: 0 <= k < n ==> words[..n][k] == words[k];
  }

  lemma InitialsUnfold(name: Option<string>)
    ensures var words := SplitWs(DisplayName(name));
      Initials(name) == JoinInitials(words[..if |words| < 3 then |words| else 3])
  {
  }

  /** For a non-empty name, the initials are exactly the first letters of its first (up to three) words. */
  lemma InitialsOfWords(name: Option<string>)
    requires DisplayName(name) != ""
    ensures var words := SplitWs(DisplayName(name));
      var n := if |words| < 3 then |words| else 3;
      && |Initials(name)| == n
      && forall k :: 0 <= k < n ==> words[k] != "" && Initials(name)[k] == UpperChar(words[k][0])
  {
    var words := SplitWs(DisplayName(name));
    var n := if |words| < 3 then |words| else 3;
    InitialsUnfold(name);
    NameWords(name);
    FirstThreeInitials(words);
    var r := Initials(name);
    assert r == JoinInitials(words[..n]);
    assert |r| == n && forall k :: 0 <= k < n ==> words[k] != "" && r[k] == UpperChar(words[k][0]);
  }

  /** A string without whitespace splits into itself alone. */
  lemma SplitWord(w: string)
    requires NoSpace(w)
    ensures SplitWs(w) == [w]
  {
    assert FirstSpace(w) == |w|;
  }

  /** The first whitespace of `s` is at `i` when none comes before it. */
  lemma {:induction false} FirstSpaceAt(s: string, i: nat)
    requires i < |s| && NoSpace(s[..i]) && IsSpace(s[i])
    ensures FirstSpace(s) == i
  {
    if i > 0 {
      assert s[..i][0] == s[0];
      assert s[1..][..i - 1] == s[..i][1..];
      FirstSpaceAt(s[1..], i - 1);
    }
  }

  /** One leading whitespace character before a non-space is all that trimming removes. */
  lemma TrimStartOne(t: string)
    requires |t| >= 2 && IsSpace(t[0]) && !IsSpace(t[1])
    ensures TrimStart(t) == t[1..]
  {
    assert t[1..][0] == t[1];
  }

  /** Trimming the front of a whitespace run followed by a non-space (or nothing) leaves exactly what follows. */
  lemma {:induction false} TrimStartRun(sp: string, t: string)
    requires AllSpace(sp) && (t == [] || !IsSpace(t[0]))
    ensures TrimStart(sp + t) == t
    decreases |sp|
  {
    if sp == [] {
      assert sp + t == t;
    } else {
      assert (sp + t)[0] == sp[0];
      assert (sp + t)[1..] == sp[1..] + t;
      assert AllSpace(sp[1..]) by {
        forall k | 0 <= k < |sp[1..]| ensures IsSpace(sp[1..][k]) {
          assert sp[1..][k] == sp[k + 1];
        }
      }
      TrimStartRun(sp[1..], t);
    }
  }

  /**
   * A word, a non-empty whitespace run and the rest split into that word
   * followed by the pieces of the rest: together with `SplitWord` this fixes
   * the split of every string.
   */
  lemma SplitWsCons(w: string, sp: string, t: string)
    requires NoSpace(w) && sp != [] && AllSpace(sp) && (t == [] || !IsSpace(t[0]))
    ensures SplitWs(w + (sp + t)) == [w] + SplitWs(t)
  {
    assert (sp + t)[0] == sp[0];
    SplitAfterWord(w, sp + t);
    TrimStartRun(sp, t);
  }

  /** A word followed by whitespace splits into the word and the split of what follows the run. */
  lemma SplitAfterWord(w: string, u: string)
    requires NoSpace(w) && u != [] && IsSpace(u[0])
    ensures SplitWs(w + u) == [w] + SplitWs(TrimStart(u))
  {
    CutAt(w, u);
    FirstSpaceAt(w + u, |w|);
    SplitAtFirstSpace(w + u, |w|);
  }

  /** Cutting `w + u` at `|w|` gives back `w` and `u`. */
  lemma CutAt(w: string, u: string)
    requires u != []
    ensures (w + u)[..|w|] == w && (w + u)[|w|..] == u && (w + u)[|w|] == u[0]
  {
  }

  /** One step of the split: the piece before the first whitespace, then the split of what follows the run. */
  lemma SplitAtFirstSpace(s: string, i: nat)
    requires i < |s| && FirstSpace(s) == i
    ensures SplitWs(s) == [s[..i]] + SplitWs(TrimStart(s[i..]))
  {
  }

  /** Two words separated by one whitespace character split into those two words. */
  lemma SplitTwoWords(s: string, i: nat)
    requires 0 < i < |s| - 1
    requires NoSpace(s[..i]) && IsSpace(s[i]) && !IsSpace(s[i + 1]) && NoSpace(s[i + 1..])
    ensures SplitWs(s) == [s[..i], s[i + 1..]]
  {
    FirstSpaceAt(s, i);
    var t := s[i..];
    assert t[0] == s[i] && t[1] == s[i + 1];
    TrimStartOne(t);
    assert t[1..] == s[i + 1..];
    SplitWord(s[i + 1..]);
  }

  /** Two words give their two first letters, upper-cased. */
  lemma JoinTwoInitials(a: string, b: string)
    requires a != "" && b != ""
    ensures JoinInitials([a, b]) == [UpperChar(a[0]), UpperChar(b[0])]
  {
    assert [a, b][1..] == [b];
    assert [b][1..] == [];
  }

  lemma DefaultNameWords()
    ensures SplitWs(DefaultName) == ["Zihan", "Rashid"]
  {
    var s := DefaultName;
    assert s[..5] == "Zihan" && s[6..] == "Rashid";
    assert NoSpace(s[..5]) && IsSpace(s[5]) && !IsSpace(s[6]) && NoSpace(s[6..]);
    SplitTwoWords(s, 5);
  }

  /** A missing or empty name is shown as the two words of the default. */
  lemma DefaultDisplayWords(name: Option<string>)
    requires name.None? || name.value == ""
    ensures SplitWs(DisplayName(name)) == ["Zihan", "Rashid"]
  {
    DefaultNameWords();
  }

  /** The default's two words give `ZR`. */
  lemma DefaultWordsInitials()
    ensures JoinInitials(["Zihan", "Rashid"][..2]) == "ZR"
  {
    assert ["Zihan", "Rashid"][..2] == ["Zihan", "Rashid"];
    JoinTwoInitials("Zihan", "Rashid");
    assert UpperChar('Z') == 'Z' && UpperChar('R') == 'R';
  }

  /** Without a name, or with an empty one, the avatar reads `ZR`. */
  lemma DefaultInitials(name: Option<string>)
    requires name.None? || name.value == ""
    ensures Initials(name) == "ZR"
  {
    DefaultDisplayWords(name);
    InitialsUnfold(name);
    DefaultWordsInitials();
  }

  /** The initials are empty exactly when the trimmed name is. */
  lemma InitialsEmptyIff(name: Option<string>)
    ensures Initials(name) == "" <==> DisplayName(name) == ""
  {
    var d := DisplayName(name);
    if d == "" {
      var words := SplitWs(d);
      assert words == [""];
      assert words[..1] == [""];
    } else {
      InitialsOfWords(name);
    }
  }
}
