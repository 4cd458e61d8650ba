/** The text the exact cache hashes into a key. */
module CacheKey {
  import opened Decimal
  import opened SemanticKey

  datatype Key = Key(tenant: string, project: string, model: string, request: string, version: Int64)

  function Preimage(k: Key): string {
    k.tenant + "\0" + (k.project + "\0" + (k.model + "\0" + (k.request + "\0" + Itoa(k.version))))
  }

  predicate Clean(k: Key) {
    '\0' !in k.tenant && '\0' !in k.project && '\0' !in k.model
  }

  /** Different keys give different texts; the request may hold any characters. */
  lemma PreimageInjective(j: Key, k: Key)
    requires Clean(j) && Clean(k) && Preimage(j) == Preimage(k)
    ensures j == k
  {
    var rj, rk := j.request + "\0" + Itoa(j.version), k.request + "\0" + Itoa(k.version);
    var mj, mk := j.model + "\0" + rj, k.model + "\0" + rk;
    FirstSeparator(j.tenant, j.project + "\0" + mj, k.tenant, k.project + "\0" + mk, '\0');
    FirstSeparator(j.project, mj, k.project, mk, '\0');
    FirstSeparator(j.model, rj, k.model, rk, '\0');
    ItoaHasNo(j.version, '\0');
    ItoaHasNo(k.version, '\0');
    LastSeparator(j.request, Itoa(j.version), k.request, Itoa(k.version), '\0');
    ItoaInjective(j.version, k.version);
  }

  /** With a NUL in a name they do not: whatever stands around it, two tenants share a text, and so a cached
  response. */
  lemma NulCollides(k: Key, a: string, b: string, c: string)
    ensures var j, l := k.(tenant := a + "\0" + b, project := c), k.(tenant := a, project := b + "\0" + c);
            Preimage(j) == Preimage(l) && j.tenant != l.tenant
  {
    var rest := k.model + "\0" + (k.request + "\0" + Itoa(k.version));
    assert (a + "\0" + b) + "\0" + (c + "\0" + rest) == a + "\0" + ((b + "\0" + c) + "\0" + rest);
    assert |a + "\0" + b| > |a|;
  }
}
