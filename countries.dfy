/** The country lookup of utils/countries.ts over an abstract copy of the
    bundled country dataset. */
module Countries {
  import opened Results

  /** One entry of the dataset, reduced to the fields the projection reads. */
  datatype WorldCountry = WorldCountry(
    cca2: string, commonName: string, flag: string, latlng: seq<real>, region: string)

  /** One entry of `formattedCountries`. */
  datatype Country = Country(
    code: string, name: string, flag: string, location: seq<real>, region: string)

  /** The projection `formattedCountries` applies to each dataset entry. */
  function Format(item: WorldCountry): Country
  {
    Country(item.cca2, item.commonName, item.flag, item.latlng, item.region)
  }

  /** `countries.map(...)`: one entry per dataset item, in the same order,
      each carrying that item's code and common name. */
  function FormattedCountries(items: seq<WorldCountry>): (r: seq<Country>)
    ensures |r| == |items|
    ensures forall i :: 0 <= i < |items| ==>
      r[i].code == items[i].cca2 && r[i].name == items[i].commonName &&
      r[i].flag == items[i].flag && r[i].location == items[i].latlng &&
      r[i].region == items[i].region
  {
    if items == [] then [] else [Format(items[0])] + FormattedCountries(items[1..])
  }

  /** `formattedCountries.find(item => item.code === code)`: the first entry
      with that code, or nothing when no entry has it. */
  function FindCountryCode(countries: seq<Country>, code: string): (r: Option<Country>)
    ensures r.Some? ==> r.value.code == code
    ensures r.Some? ==> (exists i :: 0 <= i < |countries| && countries[i] == r.value &&
                          forall j :: 0 <= j < i ==> countries[j].code != code)
    ensures r.None? <==> forall i :: 0 <= i < |countries| ==> countries[i].code != code
  {
    if countries == [] then None
    else if countries[0].code == code then Some(countries[0])
    else
      var rest := FindCountryCode(countries[1..], code);
      assert forall i :: 1 <= i < |countries| ==> countries[i] == countries[1..][i - 1];
      rest
  }

  /** Looking a code up in the formatted list finds the formatted form of the
      first dataset item whose `cca2` is that code, and nothing when no item
      has it. */
  lemma {:induction false} FindInDataset(items: seq<WorldCountry>, code: string)
    ensures FindCountryCode(FormattedCountries(items), code).None? <==>
      forall i :: 0 <= i < |items| ==> items[i].cca2 != code
    ensures forall i :: (0 <= i < |items| && items[i].cca2 == code &&
                         (forall j :: 0 <= j < i ==> items[j].cca2 != code)) ==>
                        FindCountryCode(FormattedCountries(items), code) == Some(Format(items[i]))
  {
    var formatted := FormattedCountries(items);
    forall i | 0 <= i < |items| && items[i].cca2 == code &&
      (forall j :: 0 <= j < i ==> items[j].cca2 != code)
      ensures FindCountryCode(formatted, code) == Some(Format(items[i]))
    {
      var r := FindCountryCode(formatted, code);
      assert formatted[i].code == code;
      var k :| 0 <= k < |formatted| && formatted[k] == r.value &&
        forall j :: 0 <= j < k ==> formatted[j].code != code;
      assert k == i;
    }
  }
}
