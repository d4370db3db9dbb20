/**
 * The bank list of the withdrawal form: the gateway's `/bank` response, filtered to active
 * naira banks, each cut down to its name and code, and sorted by lower-cased name. The HTTP
 * request is not modelled; its response is the input.
 */
module PaystackBanks {
  import opened Wrappers
  import opened Text
  import opened Sorting

  /** One record of the response's `data` list; `active` is false and `currency` absent when
      the record lacks the key. */
  datatype BankRecord = BankRecord(name: string, code: string, active: bool, currency: Option<string>)

  /** The response: the HTTP `ok` flag, the body's `status` (false when missing) and `data`. */
  datatype Response = Response(ok: bool, status: bool, data: seq<BankRecord>)

  /** One entry of the returned list: `{"name": ..., "code": ...}`. */
  datatype Bank = Bank(name: string, code: string)

  const FetchError := "Failed to fetch banks"

  /** The record passes the filter: active, with currency `NGN`. */
  predicate IsNairaBank(b: BankRecord) {
    b.active && b.currency == Some("NGN")
  }

  /** The comprehension: the passing records, in response order, as name and code. */
  function NairaBanks(data: seq<BankRecord>): (r: seq<Bank>)
    decreases |data|
  {
    if |data| == 0 then []
    else if IsNairaBank(data[0]) then [Bank(data[0].name, data[0].code)] + NairaBanks(data[1..])
    else NairaBanks(data[1..])
  }

  /** The sort key `x["name"].lower()`. */
  function SortKey(b: Bank): string {
    Lower(b.name)
  }

  /** Key order: `a` may precede `b` when its key is not greater. Python compares strings by
      code point. */
  function ByName(): (Bank, Bank) -> bool {
    (a: Bank, b: Bank) => !StrLess(SortKey(b), SortKey(a))
  }

  /** `fetch_banks` from the response on: raises unless the response is ok with a true status,
      and otherwise returns the filtered list sorted by name, ties in response order. */
  function FetchBanks(resp: Response): Result<seq<Bank>, string> {
    if !resp.ok || !resp.status then Err(FetchError)
    else Ok(Sort(NairaBanks(resp.data), ByName()))
  }

  /** The key order is a total preorder, so the sort is well defined. */
  lemma ByNamePreorder()
    ensures TotalPreorder(ByName())
  {
    var le := ByName();
    forall a: Bank, b: Bank ensures le(a, b) || le(b, a) {
      if StrLess(SortKey(b), SortKey(a)) {
        StrLessAsymmetric(SortKey(b), SortKey(a));
      }
    }
    forall a: Bank, b: Bank, c: Bank | le(a, b) && le(b, c) ensures le(a, c) {
      NotLessTransitive(SortKey(a), SortKey(b), SortKey(c));
    }
  }

  /** The filtered list holds exactly the passing records, as name and code. */
  lemma {:induction false} NairaBanksMembers(data: seq<BankRecord>, b: Bank)
    ensures b in NairaBanks(data) <==> exists i :: 0 <= i < |data| && IsNairaBank(data[i]) && b == Bank(data[i].name, data[i].code)
    decreases |data|
  {
    if |data| > 0 {
      NairaBanksMembers(data[1..], b);
      if b in NairaBanks(data[1..]) {
        var i :| 0 <= i < |data[1..]| && IsNairaBank(data[1..][i]) && b == Bank(data[1..][i].name, data[1..][i].code);
        assert data[i + 1] == data[1..][i];
      }
      if exists i :: 0 <= i < |data| && IsNairaBank(data[i]) && b == Bank(data[i].name, data[i].code) {
        var i :| 0 <= i < |data| && IsNairaBank(data[i]) && b == Bank(data[i].name, data[i].code);
        if i > 0 {
          assert data[1..][i - 1] == data[i];
        }
      }
    }
  }

  /** A failed response or a false status raises and returns no list. */
  lemma FetchBanksFails(resp: Response)
    ensures FetchBanks(resp).Err? <==> !resp.ok || !resp.status
    ensures FetchBanks(resp).Err? ==> FetchBanks(resp).error == FetchError
  {
  }

  /** A successful fetch returns every active naira bank of the response, each with the name and
      code of its record, and nothing else: a reordering of the filtered list. */
  lemma FetchBanksContents(resp: Response, b: Bank)
    requires resp.ok && resp.status
    ensures FetchBanks(resp).Ok?
    ensures multiset(FetchBanks(resp).value) == multiset(NairaBanks(resp.data))
    ensures b in FetchBanks(resp).value <==>
      exists i :: 0 <= i < |resp.data| && IsNairaBank(resp.data[i]) && b == Bank(resp.data[i].name, resp.data[i].code)
  {
    var r := FetchBanks(resp).value;
    NairaBanksMembers(resp.data, b);
    assert b in r <==> b in multiset(r);
    assert b in NairaBanks(resp.data) <==> b in multiset(NairaBanks(resp.data));
  }

  /** A successful fetch is ordered by lower-cased name, and banks whose names agree up to case
      keep the order the response gave them. */
  lemma FetchBanksOrdered(resp: Response, z: Bank)
    requires resp.ok && resp.status
    ensures SortedBy(FetchBanks(resp).value, ByName())
    ensures Filter(FetchBanks(resp).value, y => Tied(ByName(), z, y))
            == Filter(NairaBanks(resp.data), y => Tied(ByName(), z, y))
  {
    ByNamePreorder();
    SortSorted(NairaBanks(resp.data), ByName());
    SortStable(NairaBanks(resp.data), ByName(), z);
  }
}
