/** What appending, keying, slimming and reading warnings mean in terms of the rows and the business codes. */
module TenderBusinessWarningsMeaning {
  import opened Wrappers
  import opened Text
  import opened BusinessErrorDependencies
  import opened BusinessErrorMeaning
  import opened TenderBusinessWarnings
  import opened TenderBusinessWarningsProperties

  // ----- profile keys

  /** The row is one of the three profile gaps and names this pack code. */
  predicate IsGapOfPack(code: string, context: Context, pack: string) {
    IsGap(code) && Names(context, "pack_code", pack)
  }

  /** A stored row's key is its stripped code with its stripped pack code; a new row's code is taken as it is. */
  lemma BusinessKeyIff(w: Warning, key: ProfileKey)
    ensures Business().key(w) == Some(key) <==> key.code == Strip(w.code) && IsGapOfPack(Strip(w.code), w.context, key.packCode)
    ensures Business().newKey(w) == Some(key) <==> key.code == w.code && IsGapOfPack(w.code, w.context, key.packCode)
  {
    GapsAreProfiles(w.code);
    GapsAreProfiles(Strip(w.code));
  }

  lemma GapsAreProfiles(code: string)
    ensures code in BusinessCatalog().profileCodes <==> IsGap(code)
  {
  }

  /** Only the customer name and the profile gaps are consequences. */
  lemma BusinessDependentIff(w: Warning)
    ensures Business().dependent(w) <==> Strip(w.code) == "missing_customer_name" || IsGap(Strip(w.code))
  {
    var t, code := BusinessCatalog(), Strip(w.code);
    CausedIff(code);
    assert Business().dependent(w) == IsDependent(t, w);
  }

  lemma CausedIff(code: string)
    ensures Caused(BusinessCatalog(), code) <==> code == "missing_customer_name" || IsGap(code)
  {
    var t := BusinessCatalog();
    forall a ensures a in t.dependents && code in t.dependents[a]
                <==> (a == "missing_delivery_address" && code == "missing_customer_name") || (a == "missing_pack_code" && IsGap(code)) {
      BusinessCauses(a, code);
    }
    if code == "missing_customer_name" { assert code in t.dependents["missing_delivery_address"]; }
    if IsGap(code) { assert code in t.dependents["missing_pack_code"]; }
  }

  /** A gap with a pack code keeps its code, its message and that one entry; every other row stays whole. */
  lemma SlimMeaning(w: Warning)
    ensures var slim := Slim(Business(), w);
            && slim.code == w.code && slim.message == w.message
            && (if IsGap(Strip(w.code)) && !NamesNone(w.context, "pack_code")
                then slim.context.Keys == {"pack_code"} && slim.context["pack_code"] == w.context["pack_code"]
                else slim.context == w.context)
  {
    GapsAreProfiles(Strip(w.code));
  }

  // ----- appending

  /** The stored row has the new row's texts, once stripped, and its context. */
  predicate SameOnceStripped(stored: Warning, row: Warning) {
    Strip(stored.code) == row.code && Strip(stored.message) == row.message && stored.context == row.context
  }

  /** The stored row is the new row's gap of the same pack. */
  predicate SameGap(stored: Warning, row: Warning) {
    && IsGap(row.code) && Strip(stored.code) == row.code
    && !NamesNone(row.context, "pack_code") && NamesSame(stored.context, row.context, "pack_code")
  }

  predicate Refuses(stored: Warning, row: Warning) {
    BusinessCovers(stored, row) || SameOnceStripped(stored, row) || SameGap(stored, row)
  }

  lemma CoversAre(a: Warning, d: Warning)
    ensures Business().covers(a, d) <==> BusinessCovers(a, d)
  {
    BusinessCoversIff(a, d);
  }

  lemma SameKeyIff(stored: Warning, row: Warning)
    ensures Business().newKey(row).Some? && Business().key(stored) == Business().newKey(row) <==> SameGap(stored, row)
  {
    var pack := if "pack_code" in row.context then Strip(row.context["pack_code"]) else "";
    var key := ProfileKey(row.code, pack);
    BusinessKeyIff(row, key);
    BusinessKeyIff(stored, key);
    if Business().newKey(row).Some? {
      BusinessKeyIff(row, Business().newKey(row).value);
    }
  }

  /**
   A business warning goes to the end of the list unless a stored row covers it, is the same
   row once stripped, or is its gap of the same pack; then the list stays as it is.
   */
  lemma BusinessAppendIff(rows: seq<Warning>, row: Warning)
    ensures Appended(Business(), rows, row) == if exists k | 0 <= k < |rows| :: Refuses(rows[k], row) then rows else rows + [row]
  {
    var r := Business();
    forall k | 0 <= k < |rows|
      ensures r.covers(rows[k], row) <==> BusinessCovers(rows[k], row)
      ensures SameRow(rows[k], row) <==> SameOnceStripped(rows[k], row)
      ensures r.newKey(row).Some? && r.key(rows[k]) == r.newKey(row) <==> SameGap(rows[k], row)
    {
      CoversAre(rows[k], row);
      SameKeyIff(rows[k], row);
    }
    RefusalIs(r, rows, row);
  }

  lemma RefusalIs(r: Rules, rows: seq<Warning>, row: Warning)
    requires forall k | 0 <= k < |rows| :: r.covers(rows[k], row) <==> BusinessCovers(rows[k], row)
    requires forall k | 0 <= k < |rows| :: SameRow(rows[k], row) <==> SameOnceStripped(rows[k], row)
    requires forall k | 0 <= k < |rows| :: (r.newKey(row).Some? && r.key(rows[k]) == r.newKey(row)) <==> SameGap(rows[k], row)
    ensures Appended(r, rows, row) == if exists k | 0 <= k < |rows| :: Refuses(rows[k], row) then rows else rows + [row]
  {
    if k :| 0 <= k < |rows| && Refuses(rows[k], row) {
      assert r.covers(rows[k], row) || SameRow(rows[k], row) || (r.newKey(row).Some? && r.key(rows[k]) == r.newKey(row));
    }
  }

  // ----- filtering

  predicate OtherCovers(warnings: seq<Warning>, i: nat)
    requires i < |warnings|
  {
    exists k | 0 <= k < |warnings| :: k != i && BusinessCovers(warnings[k], warnings[i])
  }

  /** Both rows are the gap of one code and one pack. */
  predicate OneGap(a: Warning, b: Warning) {
    && IsGap(Strip(a.code)) && Strip(a.code) == Strip(b.code)
    && !NamesNone(a.context, "pack_code") && NamesSame(a.context, b.context, "pack_code")
  }

  /** Row `i` stays: no other row covers it, and no earlier row that none covers is the same gap of the same pack. */
  predicate Stays(warnings: seq<Warning>, i: nat)
    requires i < |warnings|
  {
    !OtherCovers(warnings, i) && forall j | 0 <= j < i :: OtherCovers(warnings, j) || !OneGap(warnings[j], warnings[i])
  }

  lemma StoredKeyIff(a: Warning, b: Warning)
    ensures Business().key(b).Some? && Business().key(a) == Business().key(b) <==> OneGap(a, b)
  {
    var pack := if "pack_code" in b.context then Strip(b.context["pack_code"]) else "";
    var key := ProfileKey(Strip(b.code), pack);
    BusinessKeyIff(a, key);
    BusinessKeyIff(b, key);
    if Business().key(b).Some? {
      BusinessKeyIff(b, Business().key(b).value);
    }
  }

  lemma OtherCoversIff(warnings: seq<Warning>, i: nat)
    requires i < |warnings|
    ensures CoveredByOther(Business(), warnings, i) <==> OtherCovers(warnings, i)
  {
    forall k | 0 <= k < |warnings| ensures Business().covers(warnings[k], warnings[i]) <==> BusinessCovers(warnings[k], warnings[i]) {
      CoversAre(warnings[k], warnings[i]);
    }
  }

  lemma SurvivesIff(warnings: seq<Warning>, i: nat)
    requires i < |warnings|
    ensures Survives(Business(), warnings, i) <==> Stays(warnings, i)
  {
    forall j | 0 <= j < |warnings|
      ensures CoveredByOther(Business(), warnings, j) <==> OtherCovers(warnings, j)
      ensures Business().key(warnings[i]).Some? && Business().key(warnings[j]) == Business().key(warnings[i]) <==> OneGap(warnings[j], warnings[i])
    {
      OtherCoversIff(warnings, j);
      StoredKeyIff(warnings[j], warnings[i]);
    }
    KeySeenIs(Business(), warnings, i);
  }

  lemma KeySeenIs(r: Rules, warnings: seq<Warning>, i: nat)
    requires i < |warnings|
    requires forall j | 0 <= j < |warnings| :: CoveredByOther(r, warnings, j) <==> OtherCovers(warnings, j)
    requires forall j | 0 <= j < |warnings| :: (r.key(warnings[i]).Some? && r.key(warnings[j]) == r.key(warnings[i])) <==> OneGap(warnings[j], warnings[i])
    ensures Survives(r, warnings, i) <==> Stays(warnings, i)
  {
    if r.key(warnings[i]).Some? {
      var key := r.key(warnings[i]).value;
      assert forall j | 0 <= j < i :: r.key(warnings[j]) == Some(key) <==> OneGap(warnings[j], warnings[i]);
    } else {
      assert forall j | 0 <= j < i :: !OneGap(warnings[j], warnings[i]);
    }
  }

  /** Ascending places of the rows that stay. */
  predicate StayingPlaces(places: seq<int>, warnings: seq<Warning>, n: nat)
    requires n <= |warnings|
  {
    && (forall k | 0 <= k < |places| :: 0 <= places[k] < n)
    && (forall i, j | 0 <= i < j < |places| :: places[i] < places[j])
    && (forall i | 0 <= i < n :: i in places <==> Stays(warnings, i))
  }

  predicate RowsAt(out: seq<Warning>, warnings: seq<Warning>, places: seq<int>) {
    |out| == |places| && forall k | 0 <= k < |places| :: 0 <= places[k] < |warnings| && out[k] == Slim(Business(), warnings[places[k]])
  }

  lemma StayingNext(places: seq<int>, warnings: seq<Warning>, n: nat)
    requires n < |warnings| && StayingPlaces(places, warnings, n)
    ensures StayingPlaces(if Stays(warnings, n) then places + [n] else places, warnings, n + 1)
  {
    if Stays(warnings, n) {
      var longer := places + [n];
      assert forall i :: i in longer <==> i in places || i == n;
    } else {
      assert n !in places;
    }
  }

  lemma RowsNext(out: seq<Warning>, warnings: seq<Warning>, places: seq<int>, n: nat)
    requires n < |warnings| && RowsAt(out, warnings, places)
    ensures RowsAt(out + [Slim(Business(), warnings[n])], warnings, places + [n])
  {
  }

  /** One more row of the survivors, by its place. */
  lemma SurvivorNext(warnings: seq<Warning>, n: nat)
    requires n < |warnings|
    ensures Survivors(Business(), warnings, n + 1)
         == if Stays(warnings, n) then Survivors(Business(), warnings, n) + [Slim(Business(), warnings[n])] else Survivors(Business(), warnings, n)
  {
    SurvivorsStep(Business(), warnings, n);
    SurvivesIff(warnings, n);
  }

  /** The rows kept of the first `k + 1` are those of the first `k` and, if it stays, the next one. */
  predicate GrowsAt(kept: nat -> seq<Warning>, warnings: seq<Warning>, k: nat)
    requires k < |warnings|
  {
    kept(k + 1) == if Stays(warnings, k) then kept(k) + [Slim(Business(), warnings[k])] else kept(k)
  }

  lemma {:induction false} KeptPlaces(kept: nat -> seq<Warning>, warnings: seq<Warning>, n: nat) returns (places: seq<int>)
    requires n <= |warnings| && kept(0) == [] && forall k: nat | k < |warnings| :: GrowsAt(kept, warnings, k)
    ensures StayingPlaces(places, warnings, n) && RowsAt(kept(n), warnings, places)
  {
    places := [];
    if n > 0 {
      var j := n - 1;
      places := KeptPlaces(kept, warnings, j);
      assert GrowsAt(kept, warnings, j);
      StayingNext(places, warnings, j);
      RowsNext(kept(j), warnings, places, j);
      if Stays(warnings, j) { places := places + [j]; }
    }
  }

  /**
   The filter of business warnings keeps, in order, exactly the rows that no other row covers
   and that repeat no earlier such gap of one pack, each slimmed.
   */
  lemma BusinessFilterMeaning(warnings: seq<Warning>) returns (places: seq<int>)
    ensures StayingPlaces(places, warnings, |warnings|) && RowsAt(Filtered(Business(), warnings), warnings, places)
  {
    var kept := (n: nat) => if n <= |warnings| then Survivors(Business(), warnings, n) else [];
    forall k: nat | k < |warnings| ensures GrowsAt(kept, warnings, k) { SurvivorNext(warnings, k); }
    places := KeptPlaces(kept, warnings, |warnings|);
    FilterIsSurvivors(Business(), warnings);
  }

  // ----- reading

  /** Ascending places of the rows with a code or a message. */
  predicate TextPlaces(places: seq<int>, warnings: seq<Warning>, n: nat)
    requires n <= |warnings|
  {
    && (forall k | 0 <= k < |places| :: 0 <= places[k] < n)
    && (forall i, j | 0 <= i < j < |places| :: places[i] < places[j])
    && (forall i | 0 <= i < n :: i in places <==> Strip(warnings[i].code) != "" || Strip(warnings[i].message) != "")
  }

  predicate StrippedAt(out: seq<Warning>, warnings: seq<Warning>, places: seq<int>) {
    && |out| == |places|
    && forall k | 0 <= k < |places| ::
         && 0 <= places[k] < |warnings|
         && out[k] == Warning(Strip(warnings[places[k]].code), Strip(warnings[places[k]].message), warnings[places[k]].context)
  }

  lemma TextNext(places: seq<int>, warnings: seq<Warning>, n: nat)
    requires n < |warnings| && TextPlaces(places, warnings, n)
    ensures TextPlaces(if IsBlank(warnings[n]) then places else places + [n], warnings, n + 1)
  {
    if IsBlank(warnings[n]) {
      assert n !in places;
    } else {
      var longer := places + [n];
      assert forall i :: i in longer <==> i in places || i == n;
    }
  }

  /** Reading gives the rows that have a code or a message, stripped, in order. */
  lemma {:induction false} CleanedRowsMeaning(warnings: seq<Warning>, n: nat) returns (places: seq<int>)
    requires n <= |warnings|
    ensures TextPlaces(places, warnings, n) && StrippedAt(CleanedRows(warnings, n), warnings, places)
  {
    places := [];
    if n > 0 {
      var j := n - 1;
      places := CleanedRowsMeaning(warnings, j);
      CleanedStep(warnings, j);
      TextNext(places, warnings, j);
      if !IsBlank(warnings[j]) { places := places + [j]; }
    }
  }
}
