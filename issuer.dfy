/**
 * Developer and country from the certificate issuer text of a report page.
 * The text comes in two encodings, `organizationName=..., countryName=...`
 * and `Organization: ..., Country: ...`; each value runs from a fixed offset
 * past its key up to the first comma.
 */
module Issuer {
  import opened Text
  import opened Attributes

  const DEVELOPER: string := "Developer"
  const COUNTRY: string := "Country"

  /**
   * One value: the text `skip` characters past the first occurrence of `key`,
   * cut at its first comma; `'na'` when `key` does not occur.
   */
  function ValueAfter(emisor: string, key: string, skip: nat): (v: string)
    ensures !In(key, emisor) ==> v == NA
    ensures In(key, emisor) ==>
      var rest := Suffix(emisor, Find(emisor, key) + skip);
      v <= rest && ',' !in v && (v == rest || rest[|v|] == ',')
  {
    if In(key, emisor) then UpToComma(Suffix(emisor, Find(emisor, key) + skip)) else NA
  }

  /** The `key=value` form: `organizationName=` and `countryName=` are 17 and 12 characters. */
  function EqualsForm(emisor: string): (r: (string, string))
    ensures ',' !in r.0 && ',' !in r.1
    ensures !In("organizationName=", emisor) ==> r.0 == NA
    ensures !In("countryName=", emisor) ==> r.1 == NA
  {
    (ValueAfter(emisor, "organizationName=", 17), ValueAfter(emisor, "countryName=", 12))
  }

  /**
   * The `Key: value` form: the offsets 14 and 9 skip `Organization:` and
   * `Country:` (13 and 8 characters) and the one character after each.
   */
  function ColonForm(emisor: string): (r: (string, string))
    ensures ',' !in r.0 && ',' !in r.1
    ensures !In("Organization:", emisor) ==> r.0 == NA
    ensures !In("Country:", emisor) ==> r.1 == NA
  {
    (ValueAfter(emisor, "Organization:", 14), ValueAfter(emisor, "Country:", 9))
  }

  /**
   * The updates applied to `atributos`: the `=` form when the text has an
   * `=`, then the `:` form, which overwrites both fields, when it has a `:`.
   */
  function ApplyIssuer(atributos: Record, emisor: string): (r: Record)
    ensures forall f :: f != DEVELOPER && f != COUNTRY ==> (f in r <==> f in atributos)
    ensures forall f :: f != DEVELOPER && f != COUNTRY && f in atributos ==> r[f] == atributos[f]
    ensures '=' in emisor || ':' in emisor ==> DEVELOPER in r && COUNTRY in r
    ensures ':' in emisor ==> r[DEVELOPER] == Text(ColonForm(emisor).0) && r[COUNTRY] == Text(ColonForm(emisor).1)
  {
    var afterEquals :=
      if '=' in emisor then
        var (developer, country) := EqualsForm(emisor);
        atributos[DEVELOPER := Text(developer)][COUNTRY := Text(country)]
      else atributos;
    if ':' in emisor then
      var (developer, country) := ColonForm(emisor);
      afterEquals[DEVELOPER := Text(developer)][COUNTRY := Text(country)]
    else afterEquals
  }

  /** Neither `=` nor `:`: neither field is touched. */
  lemma NoSeparatorLeavesFields(atributos: Record, emisor: string)
    requires '=' !in emisor && ':' !in emisor
    ensures ApplyIssuer(atributos, emisor) == atributos
  {
  }

  /**
   * With a separator both fields are set; the `:` form decides them whenever
   * it applies, and otherwise the `=` form does. Every other field is kept.
   */
  lemma IssuerFieldsSet(atributos: Record, emisor: string)
    requires '=' in emisor || ':' in emisor
    ensures var r := ApplyIssuer(atributos, emisor);
      && DEVELOPER in r && COUNTRY in r
      && (':' in emisor ==> r[DEVELOPER] == Text(ColonForm(emisor).0) && r[COUNTRY] == Text(ColonForm(emisor).1))
      && (':' !in emisor ==> r[DEVELOPER] == Text(EqualsForm(emisor).0) && r[COUNTRY] == Text(EqualsForm(emisor).1))
      && (forall f :: f in atributos && f != DEVELOPER && f != COUNTRY ==> f in r && r[f] == atributos[f])
      && r.Keys == atributos.Keys + {DEVELOPER, COUNTRY}
  {
  }

  /** A developer or country value never contains a comma. */
  lemma IssuerValuesHaveNoComma(atributos: Record, emisor: string)
    requires '=' in emisor || ':' in emisor
    ensures var r := ApplyIssuer(atributos, emisor);
      && r[DEVELOPER].Text? && ',' !in r[DEVELOPER].s
      && r[COUNTRY].Text? && ',' !in r[COUNTRY].s
  {
    IssuerFieldsSet(atributos, emisor);
  }

  /**
   * A value followed by a comma is read up to that comma and no further:
   * an organisation written as "Google, Inc." comes out as "Google",
   * whatever the inline comment beside this code says about keeping it.
   */
  lemma CommaCutsValue(key: string, v: string, t: string)
    requires ',' !in v
    ensures ValueAfter(key + v + "," + t, key, |key|) == v
  {
    var e := key + v + "," + t;
    assert e[..|key|] == key;
    assert OccursAt(e, key, 0);
    var rest := Suffix(e, |key|);
    assert rest == v + "," + t;
    var r := UpToComma(rest);
    assert rest[|v|] == ',';
    assert forall k :: 0 <= k < |v| ==> rest[k] == v[k];
    assert |r| == |v|;
    assert r == rest[..|v|] == v;
  }
}
