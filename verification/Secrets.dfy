/**
 Hiding the secrets of a provider's configuration from those who may see the rest of it, and putting
 them back when the configuration returns.
 */
module Secrets {
  import opened Options

  datatype Json =
    | Null
    | Bool(flag: bool)
    | Number(number: real)
    | Text(text: string)
    | Array(items: seq<Json>)
    | Object(fields: map<string, Json>)

  const PLACEHOLDER := "********"

  // ----- which keys are sensitive -----

  /** Lower case of a letter or digit beyond ASCII, or none for anything else beyond ASCII. */
  type Fold = char -> Option<char>

  function FoldChar(wide: Fold, c: char): Option<char> {
    if 'a' <= c <= 'z' || '0' <= c <= '9' then Some(c)
    else if 'A' <= c <= 'Z' then Some((c as int + 32) as char)
    else if c as int < 128 then None
    else wide(c)
  }

  function Normalized(wide: Fold, key: string): string {
    if key == "" then ""
    else (match FoldChar(wide, key[0]) case None => "" case Some(c) => [c]) + Normalized(wide, key[1..])
  }

  const SENSITIVE_NAMES := {"pwd", "passwd", "authorization", "credential", "credentials", "encryptionkey", "pin",
                            "pairingcode", "setupuri", "ssecurity", "usercode"}

  const SENSITIVE_SUFFIXES := ["password", "secret", "token", "apikey", "privatekey", "devicekey"]

  predicate HasSuffix(s: string, suffix: string) {
    |suffix| <= |s| && s[|s| - |suffix|..] == suffix
  }

  predicate Sensitive(wide: Fold, key: string) {
    var name := Normalized(wide, key);
    name in SENSITIVE_NAMES || exists i :: 0 <= i < |SENSITIVE_SUFFIXES| && HasSuffix(name, SENSITIVE_SUFFIXES[i])
  }

  /** The key that identifies array elements is never hidden. */
  lemma IdIsNotSensitive(wide: Fold)
    ensures !Sensitive(wide, "id")
  {
    assert "id"[1..] == "d" && "d"[1..] == "";
    assert Normalized(wide, "id") == "id";
    forall i | 0 <= i < |SENSITIVE_SUFFIXES|
      ensures |SENSITIVE_SUFFIXES[i]| > 2
    {
    }
    assert |"id"| == 2 && "id" != "pin";
  }

  // ----- redacting -----

  function Redact(wide: Fold, v: Json): Json {
    match v
    case Array(items) => Array(seq(|items|, i requires 0 <= i < |items| => Redact(wide, items[i])))
    case Object(fields) =>
      Object(map k | k in fields :: if Sensitive(wide, k) && fields[k] != Null then Text(PLACEHOLDER) else Redact(wide, fields[k]))
    case _ => v
  }

  /** No sensitive value but null and the placeholder, at any depth. */
  predicate Hidden(wide: Fold, v: Json) {
    match v
    case Array(items) => forall i :: 0 <= i < |items| ==> Hidden(wide, items[i])
    case Object(fields) =>
      forall k :: k in fields ==>
        if Sensitive(wide, k) then fields[k] == Null || fields[k] == Text(PLACEHOLDER) else Hidden(wide, fields[k])
    case _ => true
  }

  lemma {:induction false} RedactedIsHidden(wide: Fold, v: Json)
    ensures Hidden(wide, Redact(wide, v))
  {
    match v
    case Array(items) =>
      forall i | 0 <= i < |items|
        ensures Hidden(wide, Redact(wide, items[i]))
      {
        RedactedIsHidden(wide, items[i]);
      }
    case Object(fields) =>
      forall k | k in fields
        ensures Hidden(wide, Redact(wide, fields[k]))
      {
        RedactedIsHidden(wide, fields[k]);
      }
    case _ =>
  }

  /** Redacting what is hidden already changes nothing. */
  lemma {:induction false} HiddenIsFixed(wide: Fold, v: Json)
    requires Hidden(wide, v)
    ensures Redact(wide, v) == v
  {
    match v
    case Array(items) =>
      forall i | 0 <= i < |items|
        ensures Redact(wide, items[i]) == items[i]
      {
        HiddenIsFixed(wide, items[i]);
      }
      assert Redact(wide, v).items == items;
    case Object(fields) =>
      forall k | k in fields && !Sensitive(wide, k)
        ensures Redact(wide, fields[k]) == fields[k]
      {
        HiddenIsFixed(wide, fields[k]);
      }
      assert Redact(wide, v).fields == fields;
    case _ =>
  }

  lemma RedactIsIdempotent(wide: Fold, v: Json)
    ensures Redact(wide, Redact(wide, v)) == Redact(wide, v)
  {
    RedactedIsHidden(wide, v);
    HiddenIsFixed(wide, Redact(wide, v));
  }

  /** Trees that differ in nothing but their secrets. */
  predicate SamePublic(wide: Fold, a: Json, b: Json)
    decreases a, 0
  {
    if a.Array? then
      b.Array? && |a.items| == |b.items| && forall i :: 0 <= i < |a.items| ==> SamePublic(wide, a.items[i], b.items[i])
    else if a.Object? then
      b.Object? && a.fields.Keys == b.fields.Keys
      && forall k :: k in a.fields ==> SameField(wide, k, a.fields[k], b.fields[k])
    else a == b
  }

  predicate SameField(wide: Fold, k: string, a: Json, b: Json)
    decreases a, 1
  {
    if Sensitive(wide, k) then a == Null <==> b == Null else SamePublic(wide, a, b)
  }

  /** A redacted tree tells everything but the secrets, and nothing about them. */
  lemma {:induction false} RedactHidesExactlySecrets(wide: Fold, a: Json, b: Json)
    ensures Redact(wide, a) == Redact(wide, b) <==> SamePublic(wide, a, b)
    decreases a
  {
    if a.Array? && b.Array? && |a.items| == |b.items| {
      forall i | 0 <= i < |a.items|
        ensures Redact(wide, a.items[i]) == Redact(wide, b.items[i]) <==> SamePublic(wide, a.items[i], b.items[i])
      {
        RedactHidesExactlySecrets(wide, a.items[i], b.items[i]);
      }
      SameRedactedItems(wide, a.items, b.items);
    } else if a.Object? && b.Object? && a.fields.Keys == b.fields.Keys {
      forall k | k in a.fields
        ensures Redact(wide, a.fields[k]) == Redact(wide, b.fields[k]) <==> SamePublic(wide, a.fields[k], b.fields[k])
      {
        RedactHidesExactlySecrets(wide, a.fields[k], b.fields[k]);
      }
      SameRedactedFields(wide, a.fields, b.fields);
    } else {
      DifferentShapes(wide, a, b);
    }
  }

  lemma SameRedactedItems(wide: Fold, a: seq<Json>, b: seq<Json>)
    requires |a| == |b|
    ensures Redact(wide, Array(a)) == Redact(wide, Array(b)) <==> forall i :: 0 <= i < |a| ==> Redact(wide, a[i]) == Redact(wide, b[i])
  {
    var x, y := Redact(wide, Array(a)).items, Redact(wide, Array(b)).items;
    forall i | 0 <= i < |a|
      ensures x[i] == Redact(wide, a[i]) && y[i] == Redact(wide, b[i])
    {
    }
    assert x == y <==> forall i :: 0 <= i < |a| ==> x[i] == y[i];
  }

  lemma SameRedactedFields(wide: Fold, a: map<string, Json>, b: map<string, Json>)
    requires a.Keys == b.Keys
    ensures Redact(wide, Object(a)) == Redact(wide, Object(b)) <==>
              forall k :: k in a ==>
                if Sensitive(wide, k) then a[k] == Null <==> b[k] == Null else Redact(wide, a[k]) == Redact(wide, b[k])
  {
    var x, y := Redact(wide, Object(a)).fields, Redact(wide, Object(b)).fields;
    forall k | k in a && Sensitive(wide, k)
      ensures x[k] == y[k] <==> (a[k] == Null <==> b[k] == Null)
    {
      assert Redact(wide, Null) == Null;
      assert x[k] == if a[k] == Null then Null else Text(PLACEHOLDER);
      assert y[k] == if b[k] == Null then Null else Text(PLACEHOLDER);
    }
    assert x == y <==> forall k :: k in a ==> x[k] == y[k];
  }

  lemma DifferentShapes(wide: Fold, a: Json, b: Json)
    requires !(a.Array? && b.Array? && |a.items| == |b.items|) && !(a.Object? && b.Object? && a.fields.Keys == b.fields.Keys)
    ensures Redact(wide, a) == Redact(wide, b) <==> a == b
    ensures SamePublic(wide, a, b) <==> a == b
  {
    var x, y := Redact(wide, a), Redact(wide, b);
    if a.Array? && b.Array? {
      assert |x.items| != |y.items|;
    } else if a.Object? && b.Object? {
      assert x.fields.Keys == a.fields.Keys && y.fields.Keys == b.fields.Keys;
    }
  }

  // ----- restoring -----

  datatype Result = Ok(value: Json) | MissingSecret

  /** The id by which an array element is recognised: a text that is not empty. */
  function IdOf(v: Json): Option<string> {
    if v.Object? && "id" in v.fields && v.fields["id"].Text? && v.fields["id"].text != "" then Some(v.fields["id"].text) else None
  }

  function FindById(items: seq<Json>, id: string): Option<Json> {
    if items == [] then None
    else if IdOf(items[0]) == Some(id) then Some(items[0])
    else FindById(items[1..], id)
  }

  /** The stored element for one of a list: the one with its id, or else the one in its place. */
  function PreviousItem(previous: seq<Json>, index: nat, next: Json): Json {
    var id := IdOf(next);
    if id.Some? && FindById(previous, id.value).Some? then FindById(previous, id.value).value
    else if index < |previous| then previous[index]
    else Null
  }

  function OldItems(previous: Json): seq<Json> {
    if previous.Array? then previous.items else []
  }

  function OldFields(previous: Json): map<string, Json> {
    if previous.Object? then previous.fields else map[]
  }

  function OldField(previous: Json, key: string): Json {
    if key in OldFields(previous) then OldFields(previous)[key] else Null
  }

  /** Put stored secrets in the place of placeholders; a placeholder without a stored secret is refused. */
  function Restore(wide: Fold, next: Json, previous: Json): Result
    decreases next, 0
  {
    match next
    case Array(items) =>
      if forall i :: 0 <= i < |items| ==> Restore(wide, items[i], PreviousItem(OldItems(previous), i, items[i])).Ok? then
        Ok(Array(seq(|items|, i requires 0 <= i < |items| && Restore(wide, items[i], PreviousItem(OldItems(previous), i, items[i])).Ok? =>
                     Restore(wide, items[i], PreviousItem(OldItems(previous), i, items[i])).value)))
      else MissingSecret
    case Object(fields) =>
      if forall k :: k in fields ==> RestoreField(wide, k, fields[k], previous).Ok? then
        Ok(Object(map k | k in fields :: RestoreField(wide, k, fields[k], previous).value))
      else MissingSecret
    case _ => Ok(next)
  }

  function RestoreField(wide: Fold, key: string, child: Json, previous: Json): Result
    decreases child, 1
  {
    if Sensitive(wide, key) && child == Text(PLACEHOLDER) then
      if key !in OldFields(previous) || OldFields(previous)[key] == Text(PLACEHOLDER) then MissingSecret
      else Ok(OldFields(previous)[key])
    else Restore(wide, child, OldField(previous, key))
  }

  // ----- restoring undoes redacting -----

  /** No stored secret is the placeholder itself. */
  predicate NoPlaceholder(wide: Fold, v: Json) {
    match v
    case Array(items) => forall i :: 0 <= i < |items| ==> NoPlaceholder(wide, items[i])
    case Object(fields) =>
      forall k :: k in fields ==> if Sensitive(wide, k) then fields[k] != Text(PLACEHOLDER) else NoPlaceholder(wide, fields[k])
    case _ => true
  }

  /** In no array outside the secrets do two elements have the same id. */
  predicate DistinctIds(wide: Fold, v: Json) {
    match v
    case Array(items) =>
      && (forall i :: 0 <= i < |items| ==> DistinctIds(wide, items[i]))
      && (forall i, j :: 0 <= i < j < |items| && IdOf(items[i]).Some? ==> IdOf(items[i]) != IdOf(items[j]))
    case Object(fields) => forall k :: k in fields ==> Sensitive(wide, k) || DistinctIds(wide, fields[k])
    case _ => true
  }

  /** No sensitive value but null, at any depth. */
  predicate NoSecrets(wide: Fold, v: Json) {
    match v
    case Array(items) => forall i :: 0 <= i < |items| ==> NoSecrets(wide, items[i])
    case Object(fields) => forall k :: k in fields ==> if Sensitive(wide, k) then fields[k] == Null else NoSecrets(wide, fields[k])
    case _ => true
  }

  /**
   What an editor may make of a configuration without touching its secrets: drop, reorder or repeat
   elements that carry ids, drop fields, and change or add anything that holds no secret, elements too.
   */
  predicate Edited(wide: Fold, a: Json, b: Json)
    decreases b
  {
    if b.Array? then
      || NoSecrets(wide, b)
      || (a.Array? && forall j :: 0 <= j < |b.items| ==>
            if NoSecrets(wide, b.items[j]) then true
            else if IdOf(b.items[j]).Some? then exists i :: 0 <= i < |a.items| && IdOf(a.items[i]) == IdOf(b.items[j]) && Edited(wide, a.items[i], b.items[j])
            else j < |a.items| && Edited(wide, a.items[j], b.items[j]))
    else if b.Object? then
      || NoSecrets(wide, b)
      || (a.Object? && forall k :: k in b.fields ==>
            if Sensitive(wide, k) && b.fields[k] != Null then k in a.fields && b.fields[k] == a.fields[k]
            else if Sensitive(wide, k) then true
            else if k in a.fields then Edited(wide, a.fields[k], b.fields[k])
            else NoSecrets(wide, b.fields[k]))
    else true
  }

  lemma {:induction false} NoSecretsIsPlain(wide: Fold, v: Json, previous: Json)
    requires NoSecrets(wide, v)
    ensures Redact(wide, v) == v && Restore(wide, v, previous) == Ok(v)
    decreases v
  {
    match v
    case Array(items) =>
      forall i | 0 <= i < |items|
        ensures Redact(wide, items[i]) == items[i]
        ensures Restore(wide, items[i], PreviousItem(OldItems(previous), i, items[i])) == Ok(items[i])
      {
        NoSecretsIsPlain(wide, items[i], PreviousItem(OldItems(previous), i, items[i]));
      }
      assert Redact(wide, v).items == items;
      assert Restore(wide, v, previous).value.items == items;
    case Object(fields) =>
      forall k | k in fields
        ensures Redact(wide, fields[k]) == fields[k] && RestoreField(wide, k, fields[k], previous) == Ok(fields[k])
      {
        if Sensitive(wide, k) { assert NoSecrets(wide, Null) && fields[k] == Null; }
        NoSecretsIsPlain(wide, fields[k], OldField(previous, k));
      }
      assert Redact(wide, v).fields == fields;
      assert Restore(wide, v, previous).value.fields == fields;
    case _ =>
  }

  lemma RedactKeepsId(wide: Fold, v: Json)
    ensures IdOf(Redact(wide, v)) == IdOf(v)
  {
    IdIsNotSensitive(wide);
    if v.Object? && "id" in v.fields {
      assert Redact(wide, v).fields["id"] == Redact(wide, v.fields["id"]);
    }
  }

  lemma {:induction false} FirstIsFound(items: seq<Json>, j: nat)
    requires j < |items| && IdOf(items[j]).Some? && forall i :: 0 <= i < j ==> IdOf(items[i]) != IdOf(items[j])
    ensures FindById(items, IdOf(items[j]).value) == Some(items[j])
  {
    if j > 0 {
      FirstIsFound(items[1..], j - 1);
    }
  }

  /**
   Redacting an edited configuration and restoring it against the stored one gives the edited
   configuration, every secret with the element or field it belongs to.
   */
  lemma {:induction false} EditsKeepSecrets(wide: Fold, a: Json, b: Json)
    requires NoPlaceholder(wide, a) && DistinctIds(wide, a) && Edited(wide, a, b)
    ensures Restore(wide, Redact(wide, b), a) == Ok(b)
    decreases b
  {
    if NoSecrets(wide, b) {
      NoSecretsIsPlain(wide, b, a);
    } else if b.Array? {
      var next := Redact(wide, b).items;
      forall j | 0 <= j < |next|
        ensures Restore(wide, next[j], PreviousItem(a.items, j, next[j])) == Ok(b.items[j])
      {
        RedactKeepsId(wide, b.items[j]);
        if NoSecrets(wide, b.items[j]) {
          NoSecretsIsPlain(wide, b.items[j], PreviousItem(a.items, j, next[j]));
        } else if IdOf(b.items[j]).Some? {
          var i :| 0 <= i < |a.items| && IdOf(a.items[i]) == IdOf(b.items[j]) && Edited(wide, a.items[i], b.items[j]);
          FirstIsFound(a.items, i);
          EditsKeepSecrets(wide, a.items[i], b.items[j]);
        } else {
          EditsKeepSecrets(wide, a.items[j], b.items[j]);
        }
      }
      assert Restore(wide, Array(next), a).value.items == b.items;
    } else if b.Object? {
      var next := Redact(wide, b).fields;
      forall k | k in next
        ensures RestoreField(wide, k, next[k], a) == Ok(b.fields[k])
      {
        EditedFieldIsKept(wide, a, b, k);
        if !Sensitive(wide, k) && k in a.fields {
          EditsKeepSecrets(wide, a.fields[k], b.fields[k]);
        }
      }
      assert Restore(wide, Object(next), a).value.fields == b.fields;
    }
  }

  lemma EditedFieldIsKept(wide: Fold, a: Json, b: Json, k: string)
    requires NoPlaceholder(wide, a) && a.Object? && b.Object? && !NoSecrets(wide, b) && Edited(wide, a, b) && k in b.fields
    ensures Sensitive(wide, k) || k !in a.fields ==> RestoreField(wide, k, Redact(wide, b).fields[k], a) == Ok(b.fields[k])
  {
    var child := b.fields[k];
    if Sensitive(wide, k) && child == Null {
      assert Redact(wide, Null) == Null;
      assert Restore(wide, Null, OldField(a, k)) == Ok(Null);
    } else if !Sensitive(wide, k) && k !in a.fields {
      NoSecretsIsPlain(wide, child, OldField(a, k));
    }
  }

  // ----- exactly when restoring gives back what was redacted -----

  /** Every secret of b is the one that a stores where b's is looked up, and is not the placeholder. */
  predicate Backs(wide: Fold, a: Json, b: Json)
    decreases b, 0
  {
    match b
    case Array(items) => forall j :: 0 <= j < |items| ==> Backs(wide, PreviousItem(OldItems(a), j, items[j]), items[j])
    case Object(fields) => forall k :: k in fields ==> BacksField(wide, a, k, fields[k])
    case _ => true
  }

  predicate BacksField(wide: Fold, a: Json, key: string, child: Json)
    decreases child, 1
  {
    if !Sensitive(wide, key) then Backs(wide, OldField(a, key), child)
    else child != Null ==> child != Text(PLACEHOLDER) && key in OldFields(a) && OldFields(a)[key] == child
  }

  /** For any two configurations: restoring the redacted b against a gives b exactly if a backs b. */
  lemma {:induction false} RestoresIfBacked(wide: Fold, a: Json, b: Json)
    ensures Restore(wide, Redact(wide, b), a) == Ok(b) <==> Backs(wide, a, b)
    decreases b
  {
    match b
    case Array(items) =>
      var next := Redact(wide, b).items;
      forall j | 0 <= j < |items|
        ensures Restore(wide, next[j], PreviousItem(OldItems(a), j, next[j])) == Ok(items[j]) <==>
                  Backs(wide, PreviousItem(OldItems(a), j, items[j]), items[j])
      {
        RedactKeepsId(wide, items[j]);
        RestoresIfBacked(wide, PreviousItem(OldItems(a), j, items[j]), items[j]);
      }
      RestoredItems(wide, next, a, items);
    case Object(fields) =>
      var next := Redact(wide, b).fields;
      forall k | k in fields
        ensures RestoreField(wide, k, next[k], a) == Ok(fields[k]) <==> BacksField(wide, a, k, fields[k])
      {
        RestoresIfBacked(wide, OldField(a, k), fields[k]);
        FieldRestoresIfBacked(wide, a, k, fields[k], next[k]);
      }
      RestoredFields(wide, next, a, fields);
    case _ =>
  }

  lemma FieldRestoresIfBacked(wide: Fold, a: Json, key: string, child: Json, next: Json)
    requires Restore(wide, Redact(wide, child), OldField(a, key)) == Ok(child) <==> Backs(wide, OldField(a, key), child)
    requires next == if Sensitive(wide, key) && child != Null then Text(PLACEHOLDER) else Redact(wide, child)
    ensures RestoreField(wide, key, next, a) == Ok(child) <==> BacksField(wide, a, key, child)
  {
    assert Redact(wide, Null) == Null && Restore(wide, Null, OldField(a, key)) == Ok(Null);
    RedactMakesNoPlaceholder(wide, child);
  }

  /** Redaction leaves texts as they are, so only a text can look like the placeholder afterwards. */
  lemma RedactMakesNoPlaceholder(wide: Fold, child: Json)
    ensures Redact(wide, child) == Text(PLACEHOLDER) ==> child == Text(PLACEHOLDER)
  {
  }

  lemma RestoredItems(wide: Fold, next: seq<Json>, a: Json, items: seq<Json>)
    requires |next| == |items|
    ensures Restore(wide, Array(next), a) == Ok(Array(items)) <==>
              forall j :: 0 <= j < |items| ==> Restore(wide, next[j], PreviousItem(OldItems(a), j, next[j])) == Ok(items[j])
  {
    var r := Restore(wide, Array(next), a);
    if forall j :: 0 <= j < |items| ==> Restore(wide, next[j], PreviousItem(OldItems(a), j, next[j])) == Ok(items[j]) {
      assert r.Ok? && r.value.items == items;
    } else if r.Ok? {
      forall j | 0 <= j < |items|
        ensures Restore(wide, next[j], PreviousItem(OldItems(a), j, next[j])) == Ok(r.value.items[j])
      {
      }
    }
  }

  lemma RestoredFields(wide: Fold, next: map<string, Json>, a: Json, fields: map<string, Json>)
    requires next.Keys == fields.Keys
    ensures Restore(wide, Object(next), a) == Ok(Object(fields)) <==>
              forall k :: k in fields ==> RestoreField(wide, k, next[k], a) == Ok(fields[k])
  {
    var r := Restore(wide, Object(next), a);
    if forall k :: k in fields ==> RestoreField(wide, k, next[k], a) == Ok(fields[k]) {
      assert r.Ok? && r.value.fields == fields;
    } else if r.Ok? {
      forall k | k in fields
        ensures RestoreField(wide, k, next[k], a) == Ok(r.value.fields[k])
      {
      }
    }
  }

  /** Where elements of an array share an id, the first of them backs the others. */
  predicate TwinsAgree(wide: Fold, v: Json) {
    match v
    case Array(items) =>
      forall j :: 0 <= j < |items| ==>
        if IsTwin(items, j) then Backs(wide, PreviousItem(items, j, items[j]), items[j]) else TwinsAgree(wide, items[j])
    case Object(fields) => forall k :: k in fields ==> Sensitive(wide, k) || TwinsAgree(wide, fields[k])
    case _ => true
  }

  /** An earlier element has the same id. */
  predicate IsTwin(items: seq<Json>, j: nat)
    requires j < |items|
  {
    IdOf(items[j]).Some? && exists i :: 0 <= i < j && IdOf(items[i]) == IdOf(items[j])
  }

  lemma FirstFindsItself(items: seq<Json>, j: nat)
    requires j < |items| && !IsTwin(items, j)
    ensures PreviousItem(items, j, items[j]) == items[j]
  {
    if IdOf(items[j]).Some? {
      FirstIsFound(items, j);
    }
  }

  lemma {:induction false} BackedHasNoPlaceholder(wide: Fold, a: Json, b: Json)
    requires Backs(wide, a, b)
    ensures NoPlaceholder(wide, b)
    decreases b
  {
    match b
    case Array(items) =>
      forall j | 0 <= j < |items|
        ensures NoPlaceholder(wide, items[j])
      {
        BackedHasNoPlaceholder(wide, PreviousItem(OldItems(a), j, items[j]), items[j]);
      }
    case Object(fields) =>
      forall k | k in fields
        ensures if Sensitive(wide, k) then fields[k] != Text(PLACEHOLDER) else NoPlaceholder(wide, fields[k])
      {
        assert BacksField(wide, a, k, fields[k]);
        if !Sensitive(wide, k) { BackedHasNoPlaceholder(wide, OldField(a, k), fields[k]); }
      }
    case _ =>
  }

  /** A configuration backs itself exactly if no secret is the placeholder and elements with one id agree. */
  lemma {:induction false} BacksItself(wide: Fold, v: Json)
    ensures Backs(wide, v, v) <==> NoPlaceholder(wide, v) && TwinsAgree(wide, v)
  {
    match v
    case Array(items) =>
      forall j | 0 <= j < |items|
        ensures Backs(wide, PreviousItem(items, j, items[j]), items[j]) <==>
                  NoPlaceholder(wide, items[j])
                  && if IsTwin(items, j) then Backs(wide, PreviousItem(items, j, items[j]), items[j]) else TwinsAgree(wide, items[j])
      {
        if IsTwin(items, j) {
          if Backs(wide, PreviousItem(items, j, items[j]), items[j]) {
            BackedHasNoPlaceholder(wide, PreviousItem(items, j, items[j]), items[j]);
          }
        } else {
          FirstFindsItself(items, j);
          BacksItself(wide, items[j]);
        }
      }
    case Object(fields) =>
      forall k | k in fields
        ensures BacksField(wide, v, k, fields[k]) <==>
                  if Sensitive(wide, k) then fields[k] != Text(PLACEHOLDER)
                  else NoPlaceholder(wide, fields[k]) && TwinsAgree(wide, fields[k])
      {
        BacksItself(wide, fields[k]);
      }
    case _ =>
  }

  /** With distinct ids there are no twins that could disagree. */
  lemma {:induction false} DistinctIdsAgree(wide: Fold, v: Json)
    requires DistinctIds(wide, v)
    ensures TwinsAgree(wide, v)
  {
    match v
    case Array(items) =>
      forall j | 0 <= j < |items|
        ensures !IsTwin(items, j) && TwinsAgree(wide, items[j])
      {
        DistinctIdsAgree(wide, items[j]);
      }
    case Object(fields) =>
      forall k | k in fields && !Sensitive(wide, k)
        ensures TwinsAgree(wide, fields[k])
      {
        DistinctIdsAgree(wide, fields[k]);
      }
    case _ =>
  }

  /**
   Restoring a redacted configuration against the stored one gives the stored one exactly if no stored
   secret is the placeholder itself, and elements of one array that share an id agree in their secrets.
   */
  lemma RestoreUndoesRedact(wide: Fold, v: Json)
    ensures Restore(wide, Redact(wide, v), v) == Ok(v) <==> NoPlaceholder(wide, v) && TwinsAgree(wide, v)
    ensures DistinctIds(wide, v) ==> TwinsAgree(wide, v)
  {
    RestoresIfBacked(wide, v, v);
    BacksItself(wide, v);
    if DistinctIds(wide, v) { DistinctIdsAgree(wide, v); }
  }

  /** An element with an id is matched with the stored element of that id exactly if there is one; otherwise its place decides. */
  lemma MatchedByIdIfStored(previous: seq<Json>, index: nat, next: Json)
    requires IdOf(next).Some?
    ensures IdOf(PreviousItem(previous, index, next)) == IdOf(next) <==> exists i :: 0 <= i < |previous| && IdOf(previous[i]) == IdOf(next)
    ensures (forall i :: 0 <= i < |previous| ==> IdOf(previous[i]) != IdOf(next)) ==>
              PreviousItem(previous, index, next) == if index < |previous| then previous[index] else Null
  {
    FindFinds(previous, IdOf(next).value);
  }

  lemma {:induction false} FindFinds(items: seq<Json>, id: string)
    ensures match FindById(items, id)
            case Some(v) => v in items && IdOf(v) == Some(id)
            case None => forall i :: 0 <= i < |items| ==> IdOf(items[i]) != Some(id)
  {
    if items != [] { FindFinds(items[1..], id); }
  }

  /** A configuration that is accepted back holds no placeholder where a secret belongs. */
  lemma {:induction false} RestoredHasNoPlaceholder(wide: Fold, next: Json, previous: Json)
    requires Restore(wide, next, previous).Ok?
    ensures NoPlaceholder(wide, Restore(wide, next, previous).value)
    decreases next
  {
    var result := Restore(wide, next, previous).value;
    match next
    case Array(items) =>
      forall i | 0 <= i < |items|
        ensures NoPlaceholder(wide, result.items[i])
      {
        RestoredHasNoPlaceholder(wide, items[i], PreviousItem(OldItems(previous), i, items[i]));
      }
    case Object(fields) =>
      forall k | k in fields
        ensures if Sensitive(wide, k) then result.fields[k] != Text(PLACEHOLDER) else NoPlaceholder(wide, result.fields[k])
      {
        assert RestoreField(wide, k, fields[k], previous).Ok?;
        if !Sensitive(wide, k) {
          RestoredHasNoPlaceholder(wide, fields[k], OldField(previous, k));
        } else if fields[k] != Text(PLACEHOLDER) {
          RestoreKeepsShape(wide, fields[k], OldField(previous, k));
        }
      }
    case _ =>
  }

  lemma RestoreKeepsShape(wide: Fold, next: Json, previous: Json)
    requires Restore(wide, next, previous).Ok?
    ensures Restore(wide, next, previous).value.Text? ==> Restore(wide, next, previous).value == next
  {
  }
}
