/** The brand page's lookup of a route parameter in its table of valid brands. */
module BrandPage {
  import opened Text
  import opened Optional

  /** `validBrands`: the accepted brands and the page name each is shown under. */
  const ValidBrands: map<string, string> :=
    map["acer" := "acer", "asus" := "asus", "lenovo" := "lenevo", "msi" := "msi"]

  datatype Outcome = RedirectHome | ShowBrand(pageName: string)

  /**
   * A missing or empty parameter, or one whose lower-cased form has no (truthy)
   * entry, redirects to "/"; otherwise the entry's page name is shown. So
   * only the four brands are shown, and every other name (and no name)
   * redirects.
   */
  function Resolve(brand: Option<string>): (r: Outcome)
    ensures r.ShowBrand? <==> brand.Some? && ToLower(brand.value) in {"acer", "asus", "lenovo", "msi"}
    ensures r.ShowBrand? ==> r.pageName == ValidBrands[ToLower(brand.value)]
  {
    if brand.None? || brand.value == [] then RedirectHome
    else
      var key := ToLower(brand.value);
      if key in ValidBrands && ValidBrands[key] != [] then ShowBrand(ValidBrands[key]) else RedirectHome
  }

  /** The lookup ignores letter case: names that lower-case alike resolve alike. */
  lemma CaseInsensitive(a: string, b: string)
    requires ToLower(a) == ToLower(b)
    ensures Resolve(Some(a)) == Resolve(Some(b))
  {
  }

  /** "lenovo" is shown as page "lenevo"; the other brands under their own names. */
  lemma PageNames(s: string)
    ensures ToLower(s) == "lenovo" ==> Resolve(Some(s)) == ShowBrand("lenevo")
    ensures ToLower(s) in {"acer", "asus", "msi"} ==> Resolve(Some(s)) == ShowBrand(ToLower(s))
  {
    if ToLower(s) in {"acer", "asus", "lenovo", "msi"} {
      assert s != [];
    }
  }

  /** A scenario: a mixed-case URL segment. */
  lemma MixedCase()
    ensures Resolve(Some("LeNoVo")) == ShowBrand("lenevo")
    ensures Resolve(Some("dell")) == RedirectHome
  {
    assert ToLower("LeNoVo") == "lenovo";
    assert ToLower("dell") == "dell";
  }
}
