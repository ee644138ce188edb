/** Group-by-and-sum over expenses, as both the category chart (Analytics) and the
    monthly chart (Dashboard) compute it: one bucket per distinct key, in order of
    the key's first appearance, holding the sum of the amounts with that key. */
module Aggregation {
  import opened Seqs
  import opened LedgerTypes

  datatype Bucket = Bucket(name: string, value: real)

  function Names(bs: seq<Bucket>): (ns: seq<string>)
    ensures |ns| == |bs|
    ensures forall i :: 0 <= i < |bs| ==> ns[i] == bs[i].name
  {
    if bs == [] then [] else [bs[0].name] + Names(bs[1..])
  }

  /** The key of every expense, in order. */
  function KeysOf(es: seq<Expense>, key: Expense -> string): (ks: seq<string>)
    ensures |ks| == |es|
    ensures forall i :: 0 <= i < |es| ==> ks[i] == key(es[i])
  {
    if es == [] then [] else KeysOf(es[..|es| - 1], key) + [key(es[|es| - 1])]
  }

  /** `bs.find(b => b.name === k)`, as an index. */
  function FindBucket(bs: seq<Bucket>, k: string): (r: Option<nat>)
    ensures r.None? ==> forall j :: 0 <= j < |bs| ==> bs[j].name != k
    ensures r.Some? ==> r.value < |bs| && bs[r.value].name == k
    ensures r.Some? ==> forall j :: 0 <= j < r.value ==> bs[j].name != k
  {
    if bs == [] then None
    else if bs[0].name == k then Some(0)
    else match FindBucket(bs[1..], k)
      case None => None
      case Some(i) => Some(i + 1)
  }

  /** The value of the first bucket named `k`, or 0 when there is none. */
  function ValueOf(bs: seq<Bucket>, k: string): real {
    if bs == [] then 0.0 else if bs[0].name == k then bs[0].value else ValueOf(bs[1..], k)
  }

  /** The sum of the bucket values. */
  function SumValues(bs: seq<Bucket>): real {
    if bs == [] then 0.0 else bs[0].value + SumValues(bs[1..])
  }

  /** Add `v` to the first bucket named `k`, or append a new bucket `k: v`. */
  function AddTo(bs: seq<Bucket>, k: string, v: real): (r: seq<Bucket>)
    ensures |r| == |bs| || |r| == |bs| + 1
    ensures r != []
  {
    if bs == [] then [Bucket(k, v)]
    else if bs[0].name == k then [bs[0].(value := bs[0].value + v)] + bs[1..]
    else [bs[0]] + AddTo(bs[1..], k, v)
  }

  /** The buckets after folding the expenses in, front to back. */
  function Totals(es: seq<Expense>, key: Expense -> string): (bs: seq<Bucket>)
    ensures |bs| <= |es|
    ensures bs == [] <==> es == []
  {
    if es == [] then []
    else AddTo(Totals(es[..|es| - 1], key), key(es[|es| - 1]), es[|es| - 1].amount)
  }

  /** One more expense folds into the buckets of the prefix before it. */
  lemma TotalsStep(es: seq<Expense>, key: Expense -> string, i: nat)
    requires i < |es|
    ensures Totals(es[..i + 1], key) == AddTo(Totals(es[..i], key), key(es[i]), es[i].amount)
  {
    assert es[..i + 1][..i] == es[..i];
  }

  /** The sum of the amounts of the expenses whose key is `k`. */
  function KeyedSum(es: seq<Expense>, key: Expense -> string, k: string): real {
    if es == [] then 0.0
    else KeyedSum(es[..|es| - 1], key, k) + (if key(es[|es| - 1]) == k then es[|es| - 1].amount else 0.0)
  }

  // ---- AddTo, one step of the fold ----

  /** `AddTo` on a key that is present: the first bucket with that name is updated in place. */
  lemma {:induction false} AddToFound(bs: seq<Bucket>, k: string, v: real, i: nat)
    requires FindBucket(bs, k) == Some(i)
    ensures AddTo(bs, k, v) == bs[i := bs[i].(value := bs[i].value + v)]
  {
    if bs[0].name != k {
      AddToFound(bs[1..], k, v, i - 1);
      assert bs == [bs[0]] + bs[1..];
    }
  }

  /** `AddTo` on a key that is absent: a new bucket is pushed at the end. */
  lemma {:induction false} AddToMissing(bs: seq<Bucket>, k: string, v: real)
    requires FindBucket(bs, k) == None
    ensures AddTo(bs, k, v) == bs + [Bucket(k, v)]
  {
    if bs != [] {
      assert bs[0].name != k;
      assert FindBucket(bs[1..], k) == None;
      AddToMissing(bs[1..], k, v);
      assert bs == [bs[0]] + bs[1..];
    }
  }

  lemma {:induction false} AddToNames(bs: seq<Bucket>, k: string, v: real)
    ensures Names(AddTo(bs, k, v)) == if k in Names(bs) then Names(bs) else Names(bs) + [k]
  {
    if bs != [] {
      assert Names(bs) == [bs[0].name] + Names(bs[1..]);
      if bs[0].name != k {
        AddToNames(bs[1..], k, v);
      }
    }
  }

  lemma {:induction false} AddToValueOf(bs: seq<Bucket>, k: string, v: real, n: string)
    ensures ValueOf(AddTo(bs, k, v), n) == ValueOf(bs, n) + (if n == k then v else 0.0)
  {
    if bs != [] && bs[0].name != k {
      AddToValueOf(bs[1..], k, v, n);
    }
  }

  lemma {:induction false} AddToSumValues(bs: seq<Bucket>, k: string, v: real)
    ensures SumValues(AddTo(bs, k, v)) == SumValues(bs) + v
  {
    if bs != [] && bs[0].name != k {
      AddToSumValues(bs[1..], k, v);
    }
  }

  /** In a bucket list with distinct names, each bucket's value is the lookup of its name. */
  lemma {:induction false} ValueOfDistinct(bs: seq<Bucket>, i: nat)
    requires Distinct(Names(bs)) && i < |bs|
    ensures ValueOf(bs, bs[i].name) == bs[i].value
  {
    if i > 0 {
      assert Names(bs)[0] != Names(bs)[i];
      assert Names(bs[1..]) == Names(bs)[1..];
      ValueOfDistinct(bs[1..], i - 1);
    }
  }

  // ---- Totals, the whole fold ----

  /** The bucket names are the keys without repetitions, in first-appearance order. */
  lemma {:induction false} TotalsNames(es: seq<Expense>, key: Expense -> string)
    ensures Names(Totals(es, key)) == Dedupe(KeysOf(es, key))
  {
    if es != [] {
      var p := es[..|es| - 1];
      TotalsNames(p, key);
      AddToNames(Totals(p, key), key(es[|es| - 1]), es[|es| - 1].amount);
      assert KeysOf(es, key) == KeysOf(p, key) + [key(es[|es| - 1])];
      DedupeSnoc(KeysOf(p, key), key(es[|es| - 1]));
      DedupeMembers(KeysOf(p, key), key(es[|es| - 1]));
    }
  }

  lemma DedupeMembers(s: seq<string>, x: string)
    ensures x in Dedupe(s) <==> x in s
  {
    if x in s {
      var i :| 0 <= i < |s| && s[i] == x;
      assert s[i] in Dedupe(s);
    }
  }

  /** Looking a key up in the buckets gives the sum of the amounts with that key. */
  lemma {:induction false} TotalsValueOf(es: seq<Expense>, key: Expense -> string, k: string)
    ensures ValueOf(Totals(es, key), k) == KeyedSum(es, key, k)
  {
    if es != [] {
      var p := es[..|es| - 1];
      TotalsValueOf(p, key, k);
      AddToValueOf(Totals(p, key), key(es[|es| - 1]), es[|es| - 1].amount, k);
    }
  }

  lemma {:induction false} TotalsSumValues(es: seq<Expense>, key: Expense -> string)
    ensures SumValues(Totals(es, key)) == TotalAmount(es)
  {
    if es != [] {
      var p := es[..|es| - 1];
      TotalsSumValues(p, key);
      AddToSumValues(Totals(p, key), key(es[|es| - 1]), es[|es| - 1].amount);
    }
  }

  /** Everything the charts promise about the buckets:
      one bucket per distinct key and no other, no name twice, in the order in which
      the keys first appear, each holding the sum of the amounts with its key, and all
      of them together holding the total amount. */
  lemma TotalsCharacterization(es: seq<Expense>, key: Expense -> string)
    ensures var bs := Totals(es, key);
      && Distinct(Names(bs))
      && (forall i :: 0 <= i < |es| ==> key(es[i]) in Names(bs))
      && (forall i :: 0 <= i < |bs| ==> bs[i].name in KeysOf(es, key))
      && (forall i, j :: 0 <= i < j < |bs| ==>
            IndexOf(KeysOf(es, key), bs[i].name) < IndexOf(KeysOf(es, key), bs[j].name))
      && (forall i :: 0 <= i < |bs| ==> bs[i].value == KeyedSum(es, key, bs[i].name))
      && SumValues(bs) == TotalAmount(es)
      && (es == [] ==> bs == [])
  {
    var bs := Totals(es, key);
    var ks := KeysOf(es, key);
    TotalsNames(es, key);
    TotalsSumValues(es, key);
    forall i | 0 <= i < |es| ensures key(es[i]) in Names(bs) {
      assert ks[i] in Dedupe(ks);
    }
    forall i | 0 <= i < |bs| ensures bs[i].name in ks {
      assert Names(bs)[i] in ks;
    }
    forall i, j | 0 <= i < j < |bs|
      ensures IndexOf(ks, bs[i].name) < IndexOf(ks, bs[j].name)
    {
      DedupeFirstOccurrenceOrder(ks, i, j);
      assert Dedupe(ks)[i] == bs[i].name && Dedupe(ks)[j] == bs[j].name;
    }
    forall i | 0 <= i < |bs| ensures bs[i].value == KeyedSum(es, key, bs[i].name) {
      ValueOfDistinct(bs, i);
      TotalsValueOf(es, key, bs[i].name);
    }
  }
}
