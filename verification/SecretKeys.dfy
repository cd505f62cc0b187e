/**
 Which keys of a configuration are hidden, said without their normal form: what spelling does not matter,
 which plain words are meant, and that redacting and restoring act on exactly these.
 */
module SecretKeys {
  import opened Options
  import opened Secrets

  // ----- spelling -----

  lemma {:induction false} NormalizedJoins(wide: Fold, a: string, b: string)
    ensures Normalized(wide, a + b) == Normalized(wide, a) + Normalized(wide, b)
  {
    if a == "" {
      assert a + b == b;
    } else {
      assert (a + b)[0] == a[0] && (a + b)[1..] == a[1..] + b;
      NormalizedJoins(wide, a[1..], b);
    }
  }

  lemma NormalizedAround(wide: Fold, a: string, c: char, b: string)
    ensures Normalized(wide, a + [c] + b) == Normalized(wide, a) + Normalized(wide, [c]) + Normalized(wide, b)
    ensures Normalized(wide, [c]) == match FoldChar(wide, c) case None => "" case Some(d) => [d]
  {
    NormalizedJoins(wide, a + [c], b);
    NormalizedJoins(wide, a, [c]);
    assert [c][1..] == "";
  }

  lemma SameNormalForm(wide: Fold, a: string, b: string)
    requires Normalized(wide, a) == Normalized(wide, b)
    ensures Sensitive(wide, a) <==> Sensitive(wide, b)
  {
  }

  /** A letter or digit of ASCII. */
  predicate Plain(c: char) {
    'a' <= c <= 'z' || 'A' <= c <= 'Z' || '0' <= c <= '9'
  }

  /** Punctuation and spaces of ASCII can be put in or left out anywhere. */
  lemma PunctuationIsIgnored(wide: Fold, a: string, c: char, b: string)
    requires c as int < 128 && !Plain(c)
    ensures Sensitive(wide, a + [c] + b) <==> Sensitive(wide, a + b)
  {
    assert FoldChar(wide, c) == None;
    LeftOut(wide, a, c, b);
  }

  /** A character without a normal form does not matter. */
  lemma LeftOut(wide: Fold, a: string, c: char, b: string)
    requires FoldChar(wide, c) == None
    ensures Sensitive(wide, a + [c] + b) <==> Sensitive(wide, a + b)
  {
    NormalizedAround(wide, a, c, b);
    NormalizedJoins(wide, a, b);
    assert Normalized(wide, a) + "" == Normalized(wide, a);
    SameNormalForm(wide, a + [c] + b, a + b);
  }

  /** Characters with one normal form stand for each other. */
  lemma Exchanged(wide: Fold, a: string, c: char, b: string, d: char)
    requires FoldChar(wide, c) == FoldChar(wide, d)
    ensures Sensitive(wide, a + [c] + b) <==> Sensitive(wide, a + [d] + b)
  {
    NormalizedAround(wide, a, c, b);
    NormalizedAround(wide, a, d, b);
    SameNormalForm(wide, a + [c] + b, a + [d] + b);
  }

  /** Every ASCII letter can be written large or small. */
  lemma CaseIsIgnored(wide: Fold, a: string, c: char, b: string)
    requires 'A' <= c <= 'Z'
    ensures Sensitive(wide, a + [c] + b) <==> Sensitive(wide, a + [(c as int - 'A' as int + 'a' as int) as char] + b)
  {
    var d := (c as int - 'A' as int + 'a' as int) as char;
    assert FoldChar(wide, c) == Some(d) == FoldChar(wide, d);
    Exchanged(wide, a, c, b, d);
  }

  /** Beyond ASCII, what is no letter or digit is ignored, and a letter or digit stands for its small form. */
  lemma WideIsFolded(wide: Fold, a: string, c: char, b: string, d: char)
    requires c as int >= 128
    ensures wide(c) == None ==> (Sensitive(wide, a + [c] + b) <==> Sensitive(wide, a + b))
    ensures wide(c) == Some(d) && ('a' <= d <= 'z' || (d as int >= 128 && wide(d) == Some(d))) ==>
              (Sensitive(wide, a + [c] + b) <==> Sensitive(wide, a + [d] + b))
  {
    if wide(c) == None { LeftOut(wide, a, c, b); }
    if FoldChar(wide, c) == FoldChar(wide, d) { Exchanged(wide, a, c, b, d); }
  }

  // ----- words -----

  predicate Small(s: string) {
    forall i :: 0 <= i < |s| ==> 'a' <= s[i] <= 'z' || '0' <= s[i] <= '9'
  }

  lemma {:induction false} SmallIsNormal(wide: Fold, s: string)
    requires Small(s)
    ensures Normalized(wide, s) == s
  {
    if s != "" {
      SmallIsNormal(wide, s[1..]);
      assert s == [s[0]] + s[1..];
    }
  }

  ghost predicate EndsWith(s: string, word: string) {
    exists front :: s == front + word
  }

  /** The words of which the end of a key may consist. */
  ghost predicate EndsInSecret(s: string) {
    || EndsWith(s, "password") || EndsWith(s, "secret") || EndsWith(s, "token")
    || EndsWith(s, "apikey") || EndsWith(s, "privatekey") || EndsWith(s, "devicekey")
  }

  /** The words that are secret as a whole key. */
  predicate IsSecret(s: string) {
    || s == "pwd" || s == "passwd" || s == "authorization" || s == "credential" || s == "credentials" || s == "encryptionkey"
    || s == "pin" || s == "pairingcode" || s == "setupuri" || s == "ssecurity" || s == "usercode"
  }

  lemma SuffixIsEnd(s: string, word: string)
    ensures HasSuffix(s, word) <==> EndsWith(s, word)
  {
    if HasSuffix(s, word) {
      assert s == s[..|s| - |word|] + word;
    }
    if front :| s == front + word {
      assert s[|s| - |word|..] == word;
    }
  }

  lemma SuffixesAreListed(s: string)
    ensures (exists i :: 0 <= i < |SENSITIVE_SUFFIXES| && HasSuffix(s, SENSITIVE_SUFFIXES[i])) <==> EndsInSecret(s)
  {
    SuffixIsEnd(s, "password");
    SuffixIsEnd(s, "secret");
    SuffixIsEnd(s, "token");
    SuffixIsEnd(s, "apikey");
    SuffixIsEnd(s, "privatekey");
    SuffixIsEnd(s, "devicekey");
    assert SENSITIVE_SUFFIXES[0] == "password" && SENSITIVE_SUFFIXES[1] == "secret" && SENSITIVE_SUFFIXES[2] == "token";
    assert SENSITIVE_SUFFIXES[3] == "apikey" && SENSITIVE_SUFFIXES[4] == "privatekey" && SENSITIVE_SUFFIXES[5] == "devicekey";
  }

  /** A key of small letters and digits is sensitive exactly if it is one of the secret words or ends in one. */
  lemma SensitiveWords(wide: Fold, s: string)
    requires Small(s)
    ensures Sensitive(wide, s) <==> IsSecret(s) || EndsInSecret(s)
  {
    SmallIsNormal(wide, s);
    SuffixesAreListed(s);
  }

  const SECRET_ENDS := {"password", "secret", "token", "apikey", "privatekey", "devicekey"}

  lemma SecretEndsAreSmall(word: string)
    requires word in SECRET_ENDS
    ensures Small(word)
  {
  }

  lemma SecretEndIsSecret(front: string, word: string)
    requires word in SECRET_ENDS
    ensures EndsInSecret(front + word)
  {
    assert EndsWith(front + word, word);
  }

  /** Whatever comes before it, a key that ends in one of these words is sensitive. */
  lemma EndingIsSensitive(wide: Fold, front: string, word: string)
    requires word in SECRET_ENDS
    ensures Sensitive(wide, front + word)
  {
    SecretEndsAreSmall(word);
    NormalizedJoins(wide, front, word);
    SmallIsNormal(wide, word);
    SecretEndIsSecret(Normalized(wide, front), word);
    SecretByItsEnd(wide, front + word);
  }

  lemma SecretByItsEnd(wide: Fold, key: string)
    requires EndsInSecret(Normalized(wide, key))
    ensures Sensitive(wide, key)
  {
    SuffixesAreListed(Normalized(wide, key));
  }

  // ----- redacting and restoring, field by field -----

  /** Redacting an object hides such fields and goes into the others; a field without a value stays. */
  lemma FieldsAreHidden(wide: Fold, fields: map<string, Json>, front: string, word: string)
    requires word in SECRET_ENDS && front + word in fields
    ensures Redact(wide, Object(fields)).Object? && front + word in Redact(wide, Object(fields)).fields
    ensures Redact(wide, Object(fields)).fields[front + word] == if fields[front + word] == Null then Null else Text("********")
  {
    EndingIsSensitive(wide, front, word);
    assert Redact(wide, Null) == Null;
  }

  /** An object whose field "id" is this text. */
  predicate IsNamed(v: Json, id: string) {
    v.Object? && "id" in v.fields && v.fields["id"] == Text(id) && id != ""
  }

  lemma NameIsId(v: Json, id: string)
    ensures IsNamed(v, id) <==> IdOf(v) == Some(id)
  {
  }

  /** A placeholder in an element with an id gets the secret of the first stored element with that id, wherever either stands. */
  lemma SecretFollowsItsElement(wide: Fold, items: seq<Json>, previous: seq<Json>, j: nat, i: nat, id: string, key: string)
    requires j < |items| && i < |previous| && IsNamed(items[j], id) && IsNamed(previous[i], id)
    requires forall k :: 0 <= k < i ==> !IsNamed(previous[k], id)
    requires Sensitive(wide, key) && key in items[j].fields && items[j].fields[key] == Text("********")
    requires Restore(wide, Array(items), Array(previous)).Ok?
    ensures key in previous[i].fields && previous[i].fields[key] != Text("********")
    ensures var r := Restore(wide, Array(items), Array(previous)).value;
            r.Array? && |r.items| == |items| && r.items[j].Object? && key in r.items[j].fields && r.items[j].fields[key] == previous[i].fields[key]
  {
    forall k | 0 <= k < i
      ensures IdOf(previous[k]) != IdOf(previous[i])
    {
      NameIsId(previous[k], id);
    }
    FirstIsFound(previous, i);
    assert PreviousItem(OldItems(Array(previous)), j, items[j]) == previous[i];
    var r := Restore(wide, items[j], previous[i]);
    assert r.Ok? && RestoreField(wide, key, items[j].fields[key], previous[i]).Ok?;
  }

  /** In an element or object without a stored counterpart, a placeholder is refused. */
  lemma PlaceholderNeedsASecret(wide: Fold, fields: map<string, Json>, previous: Json, key: string)
    requires Sensitive(wide, key) && key in fields && fields[key] == Text("********")
    requires !previous.Object? || key !in previous.fields || previous.fields[key] == Text("********")
    ensures Restore(wide, Object(fields), previous) == MissingSecret
  {
    assert RestoreField(wide, key, fields[key], previous) == MissingSecret;
  }
}
