/** The account list: a currency emoji per account and a search on the
    IBAN or the currency. */
module CompteScreen {
  import opened Common
  import opened Ledger

  const EuroEmoji: string := "\U{1F4B6}"
  const DollarEmoji: string := "\U{1F4B5}"
  const DinarEmoji: string := "\U{1FA99}"
  const DirhamEmoji: string := "\U{1F4B0}"
  const CardEmoji: string := "\U{1F4B3}"

  /** `getDeviseEmoji`: the emoji of the upper-cased currency code, the card
      for any code other than EUR, USD, TND and MAD. */
  function DeviseEmoji(devise: string): (r: string)
    ensures Upper(devise) == "EUR" <==> r == EuroEmoji
    ensures Upper(devise) == "USD" <==> r == DollarEmoji
    ensures Upper(devise) == "TND" <==> r == DinarEmoji
    ensures Upper(devise) == "MAD" <==> r == DirhamEmoji
    ensures r == CardEmoji <==>
      Upper(devise) != "EUR" && Upper(devise) != "USD" && Upper(devise) != "TND" && Upper(devise) != "MAD"
  {
    var code := Upper(devise);
    if code == "EUR" then EuroEmoji
    else if code == "USD" then DollarEmoji
    else if code == "TND" then DinarEmoji
    else if code == "MAD" then DirhamEmoji
    else CardEmoji
  }

  /** The emoji does not depend on the case of the code. */
  lemma DeviseEmojiIgnoresCase(devise: string)
    ensures DeviseEmoji(Lower(devise)) == DeviseEmoji(devise)
    ensures DeviseEmoji(Upper(devise)) == DeviseEmoji(devise)
  {
    UpperOfLower(devise);
    UpperIdempotent(devise);
  }

  /** Lower-case and mixed-case codes get their currency's emoji. */
  lemma DeviseEmojiExamples()
    ensures DeviseEmoji("eur") == EuroEmoji
    ensures DeviseEmoji("Usd") == DollarEmoji
    ensures DeviseEmoji("tnd") == DinarEmoji
    ensures DeviseEmoji("MAD") == DirhamEmoji
    ensures DeviseEmoji("GBP") == CardEmoji
  {
    assert Upper("eur") == "EUR";
    assert Upper("Usd") == "USD";
    assert Upper("tnd") == "TND";
    assert Upper("MAD") == "MAD";
    assert Upper("GBP") == "GBP";
  }

  /** The IBAN or the currency contains the search, all lower-cased: the
      lower-cased search occurs at some position of one of them. */
  predicate AccountMatches(c: Account, search: string)
    ensures AccountMatches(c, search) <==>
      OccursSomewhere(Lower(c.iban), Lower(search)) || OccursSomewhere(Lower(c.currency), Lower(search))
  {
    ContainsIffOccurs(Lower(c.iban), Lower(search));
    ContainsIffOccurs(Lower(c.currency), Lower(search));
    Contains(Lower(c.iban), Lower(search)) || Contains(Lower(c.currency), Lower(search))
  }

  /** `comptesFiltres`: the matching accounts, in their order. */
  function FilterAccounts(comptes: seq<Account>, search: string): (r: seq<Account>)
    ensures Subsequence(r, comptes)
    ensures forall c :: c in comptes ==>
      multiset(r)[c] == if AccountMatches(c, search) then multiset(comptes)[c] else 0
  {
    var p := (c: Account) => AccountMatches(c, search);
    FilterFacts(comptes, p);
    Filter(comptes, p)
  }

  /** An account is listed iff its IBAN or currency matches the search. */
  lemma AccountListedIff(comptes: seq<Account>, search: string, c: Account)
    ensures c in FilterAccounts(comptes, search) <==> c in comptes && AccountMatches(c, search)
  {
    FilterMembership(comptes, (a: Account) => AccountMatches(a, search), c);
  }

  /** An empty search lists every account. */
  lemma EmptySearchListsAll(comptes: seq<Account>)
    ensures FilterAccounts(comptes, "") == comptes
  {
    forall c | c in comptes
      ensures AccountMatches(c, "")
    {
      ContainsEmpty(Lower(c.iban));
    }
    FilterKeepsAll(comptes, (c: Account) => AccountMatches(c, ""));
  }

  /** "Aucun compte trouvé." is shown iff no account matches the search. */
  lemma EmptyMessageIff(comptes: seq<Account>, search: string)
    ensures |FilterAccounts(comptes, search)| == 0 <==> forall c :: c in comptes ==> !AccountMatches(c, search)
  {
    var r := FilterAccounts(comptes, search);
    if |r| == 0 {
      forall c | c in comptes
        ensures !AccountMatches(c, search)
      {
        AccountListedIff(comptes, search, c);
      }
    } else {
      AccountListedIff(comptes, search, r[0]);
    }
  }
}
