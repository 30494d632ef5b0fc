/** The email-format check the forms apply (the repository's own check is not
    part of this model; this one has its usual shape). */
module Email {
  import opened Text

  predicate NoSpace(s: string) {
    forall i :: 0 <= i < |s| ==> !IsWhitespace(s[i])
  }

  /** A dot-separated domain with at least two labels, none empty. */
  predicate IsDomain(d: string) {
    var labels := Split(d, '.');
    |labels| >= 2 && forall k :: 0 <= k < |labels| ==> labels[k] != ""
  }

  /** The email check, simplified: no whitespace, exactly one `@`, a non-empty
      local part and a dotted domain. */
  predicate IsEmail(s: string) {
    var parts := Split(s, '@');
    NoSpace(s) && |parts| == 2 && parts[0] != "" && IsDomain(parts[1])
  }

  /** An email is non-empty and already trimmed. */
  lemma EmailIsTrimmed(s: string)
    requires IsEmail(s)
    ensures s != "" && Trim(s) == s
  {
    TrimOfTrimmed(s);
  }

  /** `local@host.tld` with plain non-empty parts is an email. */
  lemma ExampleEmail(local: string, host: string, tld: string)
    requires local != "" && host != "" && tld != ""
    requires NoSpace(local) && NoSpace(host) && NoSpace(tld)
    requires '@' !in local && '@' !in host && '@' !in tld
    requires '.' !in host && '.' !in tld
    ensures IsEmail(local + "@" + host + "." + tld)
  {
    var domain := host + ['.'] + tld;
    var s := local + "@" + host + "." + tld;
    assert s == local + ['@'] + domain;
    assert '@' !in domain by {
      assert forall c :: c in domain ==> c in host || c == '.' || c in tld;
    }
    SplitAfterPiece(local, '@', domain);
    SplitSingle(domain, '@');
    SplitAfterPiece(host, '.', tld);
    SplitSingle(tld, '.');
    assert Split(domain, '.') == [host, tld];
    NoSpaceAppend(local, ['@']);
    NoSpaceAppend(local + ['@'], host);
    NoSpaceAppend(local + ['@'] + host, ['.']);
    NoSpaceAppend(local + ['@'] + host + ['.'], tld);
    assert s == local + ['@'] + host + ['.'] + tld;
  }

  lemma NoSpaceAppend(a: string, b: string)
    requires NoSpace(a) && NoSpace(b)
    ensures NoSpace(a + b)
  {
    forall i | 0 <= i < |a + b| ensures !IsWhitespace((a + b)[i]) {
      if i >= |a| {
        assert (a + b)[i] == b[i - |a|];
      }
    }
  }
}
