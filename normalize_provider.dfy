/** `normalizeProvider` (utils/normalizeProvider.ts). */
module NormalizeProvider {
  import opened Js

  /** Lower-cases the provider name and maps "azure-ad" to "azure". */
  function NormalizeProvider(provider: string): (r: string)
    ensures HasNoUpper(r)
    ensures Lower(provider) == "azure-ad" ==> r == "azure"
    ensures Lower(provider) != "azure-ad" ==> r == Lower(provider)
  {
    LowerHasNoUpper(provider);
    var lower := Lower(provider);
    if lower == "azure-ad" then "azure" else lower
  }

  /** Normalising a normalised name changes nothing. */
  lemma NormalizeProviderIdempotent(provider: string)
    ensures NormalizeProvider(NormalizeProvider(provider)) == NormalizeProvider(provider)
  {
    var r := NormalizeProvider(provider);
    LowerOfNoUpper(r);
    assert Lower(r) == r;
  }

  lemma Examples()
    ensures NormalizeProvider("Google") == "google"
    ensures NormalizeProvider("AZURE-AD") == "azure"
    ensures NormalizeProvider("Azure-Ad") == "azure"
    ensures NormalizeProvider("microsoft") == "microsoft"
  {
    assert Lower("Google") == "google";
    assert Lower("AZURE-AD") == "azure-ad";
    assert Lower("Azure-Ad") == "azure-ad";
    assert Lower("microsoft") == "microsoft";
  }
}
