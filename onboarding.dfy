/** The account-opening intent form: three validated text fields (name,
    identity document, e-mail), a reCAPTCHA token that is never validated,
    the error record shown under the fields and the submit guard. */
module Onboarding {
  import opened Wrappers
  import opened Text

  datatype Field = Nombre | Documento | Correo | Recaptcha

  /** The four input strings of the form. */
  datatype FormData = FormData(nombre: string, documento: string, correo: string, recaptcha: string)
  {
    function Get(f: Field): string
    {
      match f
      case Nombre => nombre
      case Documento => documento
      case Correo => correo
      case Recaptcha => recaptcha
    }

    /** `{ ...prev, [f]: v }`: the named field takes the new value. */
    function Set(f: Field, v: string): (d: FormData)
      ensures d.Get(f) == v
      ensures forall g :: g != f ==> d.Get(g) == Get(g)
    {
      match f
      case Nombre => this.(nombre := v)
      case Documento => this.(documento := v)
      case Correo => this.(correo := v)
      case Recaptcha => this.(recaptcha := v)
    }
  }

  /** The page's React state. */
  datatype State = State(formData: FormData, errors: map<Field, string>, isSubmitting: bool, submitSuccess: bool)

  // ---------------------------------------------------------------------
  // The name rule
  // ---------------------------------------------------------------------

  /** The class `[a-zA-ZáéíóúÁÉÍÓÚñÑ\s]`. */
  predicate IsNameChar(c: char)
  {
    || ('a' <= c <= 'z') || ('A' <= c <= 'Z')
    || c in "áéíóúÁÉÍÓÚñÑ"
    || IsWhitespace(c)
  }

  /** Every allowed character is a single UTF-16 unit. */
  lemma NameCharIsNotAstral(c: char)
    requires IsNameChar(c)
    ensures !IsAstral(c)
  {
  }

  /** `/^[a-zA-ZáéíóúÁÉÍÓÚñÑ\s]+$/.test(s)`. */
  predicate OnlyNameChars(s: string)
  {
    |s| > 0 && forall i :: 0 <= i < |s| ==> IsNameChar(s[i])
  }

  const NombreRequerido := "El nombre es requerido"
  const NombreCorto := "El nombre debe tener al menos 3 caracteres"
  const NombreLetras := "El nombre solo puede contener letras"

  /** The message for the name, from the first failing test: blank after
      trimming, fewer than 3 UTF-16 units after trimming, then a character
      outside the allowed class anywhere in the untrimmed text. */
  function NombreError(s: string): (e: Option<string>)
    ensures e.Some? ==> e.value in {NombreRequerido, NombreCorto, NombreLetras}
    ensures e.None? ==> Utf16Length(Trim(s)) >= 3 && OnlyNameChars(s)
  {
    if Trim(s) == "" then Some(NombreRequerido)
    else if Utf16Length(Trim(s)) < 3 then Some(NombreCorto)
    else if !OnlyNameChars(s) then Some(NombreLetras)
    else None
  }

  /** Each name message appears exactly when its test is the first to fail. */
  lemma NombreErrorOrder(s: string)
    ensures NombreError(s) == Some(NombreRequerido) <==> AllWhitespace(s)
    ensures NombreError(s) == Some(NombreCorto) <==> !AllWhitespace(s) && Utf16Length(Trim(s)) < 3
    ensures NombreError(s) == Some(NombreLetras) <==>
      Utf16Length(Trim(s)) >= 3 && exists i :: 0 <= i < |s| && !IsNameChar(s[i])
  {
    TrimSpec(s);
  }

  /** A name is accepted exactly when it has at least three units once
      trimmed and nothing but letters and whitespace. */
  lemma NombreAccepted(s: string)
    ensures NombreError(s) == None <==>
      Utf16Length(Trim(s)) >= 3 && forall i :: 0 <= i < |s| ==> IsNameChar(s[i])
  {
    TrimSpec(s);
  }

  /** An accepted name has at least three characters once trimmed and
      begins and ends with a letter. */
  lemma NombreAcceptedShape(s: string)
    requires NombreError(s) == None
    ensures var t := Trim(s);
      && |t| >= 3
      && !IsWhitespace(t[0]) && IsNameChar(t[0])
      && !IsWhitespace(t[|t| - 1]) && IsNameChar(t[|t| - 1])
  {
    TrimSpec(s);
    var t := Trim(s);
    var k := LeadingSpace(s);
    assert t == s[k..k + |t|];
    assert OnlyNameChars(s);
    forall i | 0 <= i < |t| ensures !IsAstral(t[i]) && IsNameChar(t[i]) {
      assert t[i] == s[k + i];
      NameCharIsNotAstral(t[i]);
    }
  }

  // ---------------------------------------------------------------------
  // The document rule
  // ---------------------------------------------------------------------

  /** `/^\d+$/.test(s)`. */
  predicate OnlyDigits(s: string)
  {
    |s| > 0 && AllDigits(s)
  }

  const DocumentoRequerido := "El documento es requerido"
  const DocumentoNumeros := "El documento solo puede contener números"
  const DocumentoLongitud := "El documento debe tener entre 6 y 15 dígitos"

  /** The message for the document: blank after trimming, then any
      non-digit in the untrimmed text, then a length outside 6..15. */
  function DocumentoError(s: string): (e: Option<string>)
    ensures e.Some? ==> e.value in {DocumentoRequerido, DocumentoNumeros, DocumentoLongitud}
    ensures e.None? ==> OnlyDigits(s) && 6 <= Utf16Length(s) <= 15
  {
    if Trim(s) == "" then Some(DocumentoRequerido)
    else if !OnlyDigits(s) then Some(DocumentoNumeros)
    else if Utf16Length(s) < 6 || Utf16Length(s) > 15 then Some(DocumentoLongitud)
    else None
  }

  /** A document is accepted exactly when it is 6 to 15 ASCII digits, with
      no surrounding spaces; a blank one is "required", spaces around
      digits count as non-digits. */
  lemma DocumentoAccepted(s: string)
    ensures DocumentoError(s) == None <==> AllDigits(s) && 6 <= |s| <= 15
    ensures DocumentoError(s) == Some(DocumentoRequerido) <==> AllWhitespace(s)
    ensures DocumentoError(s) == Some(DocumentoNumeros) <==>
      !AllWhitespace(s) && exists i :: 0 <= i < |s| && !IsDigit(s[i])
    ensures DocumentoError(s) == Some(DocumentoLongitud) <==>
      AllDigits(s) && 0 < |s| && (|s| < 6 || |s| > 15)
  {
    TrimSpec(s);
    if AllDigits(s) {
      assert forall i :: 0 <= i < |s| ==> !IsAstral(s[i]);
      if s != [] {
        assert !IsWhitespace(s[0]);
      }
    }
  }

  // ---------------------------------------------------------------------
  // The e-mail rule
  // ---------------------------------------------------------------------

  /** The class `[^\s@]`. */
  predicate Plain(c: char)
  {
    !IsWhitespace(c) && c != '@'
  }

  predicate AllPlain(t: string)
  {
    forall i :: 0 <= i < |t| ==> Plain(t[i])
  }

  /** `s` reads as `L@D.T` with the `@` at `k` and the `.` at `j`, where
      `L`, `D` and `T` are non-empty runs of `[^\s@]`. */
  predicate SplitsAt(s: string, k: int, j: int)
  {
    && 0 < k && k + 1 < j && j + 1 < |s|
    && s[k] == '@' && s[j] == '.'
    && AllPlain(s[..k]) && AllPlain(s[k + 1..j]) && AllPlain(s[j + 1..])
  }

  /** `/^[^\s@]+@[^\s@]+\.[^\s@]+$/.test(s)`: a match has at least five
      characters and neither starts nor ends with `@`. */
  predicate EmailPattern(s: string)
    ensures EmailPattern(s) ==> |s| >= 5 && s[0] != '@' && s[|s| - 1] != '@'
  {
    exists k, j :: 0 < k < j < |s| && SplitsAt(s, k, j)
  }

  /** The only `@` of `s` is at `k`. */
  predicate OnlyAt(s: string, k: int)
  {
    0 <= k < |s| && s[k] == '@' && forall i :: 0 <= i < |s| && s[i] == '@' ==> i == k
  }

  /** `d` has a `.` that is neither its first nor its last character. */
  predicate InnerDot(d: string)
  {
    exists j :: 0 < j < |d| - 1 && d[j] == '.'
  }

  /** The shape of an accepted address described without the regular
      expression: no whitespace, exactly one `@`, something before it, and a
      domain with a dot strictly inside. */
  predicate IsEmailShape(s: string)
  {
    NoWhitespace(s) && exists k :: 0 < k < |s| && OnlyAt(s, k) && InnerDot(s[k + 1..])
  }

  lemma PatternHasShape(s: string, k: int, j: int)
    requires SplitsAt(s, k, j)
    ensures NoWhitespace(s) && OnlyAt(s, k) && InnerDot(s[k + 1..])
  {
    forall i | 0 <= i < |s| && i != k && i != j ensures Plain(s[i]) {
      if i < k {
        assert s[..k][i] == s[i];
      } else if i < j {
        assert s[k + 1..j][i - k - 1] == s[i];
      } else {
        assert s[j + 1..][i - j - 1] == s[i];
      }
    }
    assert s[k + 1..][j - k - 1] == '.';
  }

  lemma ShapeHasPattern(s: string, k: int, j: int)
    requires NoWhitespace(s) && 0 < k && OnlyAt(s, k)
    requires 0 < j < |s[k + 1..]| - 1 && s[k + 1..][j] == '.'
    ensures SplitsAt(s, k, k + 1 + j)
  {
    var jj := k + 1 + j;
    assert s[jj] == '.';
    forall i | 0 <= i < |s| && i != k ensures Plain(s[i]) {
      assert !IsWhitespace(s[i]);
    }
    forall i | 0 <= i < k ensures Plain(s[..k][i]) {
      assert s[..k][i] == s[i];
    }
    var domain, tld := s[k + 1..jj], s[jj + 1..];
    forall i | 0 <= i < |domain| ensures Plain(domain[i]) {
      assert domain[i] == s[k + 1 + i];
    }
    forall i | 0 <= i < |tld| ensures Plain(tld[i]) {
      assert tld[i] == s[jj + 1 + i];
    }
  }

  /** The regular expression accepts exactly the addresses of that shape. */
  lemma EmailPatternIsShape(s: string)
    ensures EmailPattern(s) <==> IsEmailShape(s)
  {
    if EmailPattern(s) {
      var k, j :| 0 < k < j < |s| && SplitsAt(s, k, j);
      PatternHasShape(s, k, j);
    }
    if IsEmailShape(s) {
      var k :| 0 < k < |s| && OnlyAt(s, k) && InnerDot(s[k + 1..]);
      var j :| 0 < j < |s[k + 1..]| - 1 && s[k + 1..][j] == '.';
      ShapeHasPattern(s, k, j);
    }
  }

  const CorreoRequerido := "El correo es requerido"
  const CorreoInvalido := "Ingresa un correo válido"

  /** The message for the e-mail: blank after trimming, then the pattern. */
  function CorreoError(s: string): (e: Option<string>)
    ensures e.Some? ==> e.value in {CorreoRequerido, CorreoInvalido}
    ensures e.None? <==> Trim(s) != "" && EmailPattern(s)
  {
    if Trim(s) == "" then Some(CorreoRequerido)
    else if !EmailPattern(s) then Some(CorreoInvalido)
    else None
  }

  /** An e-mail is accepted exactly when it has the address shape; a blank
      one is "required" and any other is "invalid". */
  lemma CorreoAccepted(s: string)
    ensures CorreoError(s) == None <==> IsEmailShape(s)
    ensures CorreoError(s) == Some(CorreoRequerido) <==> AllWhitespace(s)
    ensures CorreoError(s) == Some(CorreoInvalido) <==> !AllWhitespace(s) && !IsEmailShape(s)
  {
    TrimSpec(s);
    EmailPatternIsShape(s);
    if IsEmailShape(s) {
      assert !IsWhitespace(s[0]);
    }
  }

  // ---------------------------------------------------------------------
  // validacionForm
  // ---------------------------------------------------------------------

  /** The message each field gets; the reCAPTCHA token is never checked. */
  function FieldError(data: FormData, f: Field): Option<string>
  {
    match f
    case Nombre => NombreError(data.nombre)
    case Documento => DocumentoError(data.documento)
    case Correo => CorreoError(data.correo)
    case Recaptcha => None
  }

  /** `newErrors.f = message` when the field failed. */
  function Record(errors: map<Field, string>, f: Field, e: Option<string>): map<Field, string>
  {
    if e.Some? then errors[f := e.value] else errors
  }

  /** The record built from the three verdicts, in the order name,
      document, e-mail: an entry for each failed field, holding its
      message, and none for the reCAPTCHA token. */
  function ErrorRecord(en: Option<string>, ed: Option<string>, ec: Option<string>): (m: map<Field, string>)
    ensures Nombre in m <==> en.Some?
    ensures Nombre in m ==> m[Nombre] == en.value
    ensures Documento in m <==> ed.Some?
    ensures Documento in m ==> m[Documento] == ed.value
    ensures Correo in m <==> ec.Some?
    ensures Correo in m ==> m[Correo] == ec.value
    ensures Recaptcha !in m
  {
    Record(Record(Record(map[], Nombre, en), Documento, ed), Correo, ec)
  }

  /** The error record `validacionForm` builds. */
  function ValidationErrors(data: FormData): map<Field, string>
  {
    ErrorRecord(NombreError(data.nombre), DocumentoError(data.documento), CorreoError(data.correo))
  }

  /** Every field has an entry exactly when it fails, holding its message. */
  lemma ValidationErrorsSpec(data: FormData, f: Field)
    ensures f in ValidationErrors(data) <==> FieldError(data, f).Some?
    ensures f in ValidationErrors(data) ==> ValidationErrors(data)[f] == FieldError(data, f).value
  {
    match f
    case Nombre =>
    case Documento =>
    case Correo =>
    case Recaptcha =>
  }

  /** None of the three checked fields fails. */
  predicate IsValid(data: FormData)
  {
    NombreError(data.nombre) == None && DocumentoError(data.documento) == None
    && CorreoError(data.correo) == None
  }

  /** The body of `validacionForm`: start from an empty record and add
      the message of each failed field, in the order name, document,
      e-mail. */
  method FillErrors(en: Option<string>, ed: Option<string>, ec: Option<string>) returns (errors: map<Field, string>)
    ensures errors == ErrorRecord(en, ed, ec)
  {
    errors := map[];
    if en.Some? { errors := errors[Nombre := en.value]; }
    if ed.Some? { errors := errors[Documento := ed.value]; }
    if ec.Some? { errors := errors[Correo := ec.value]; }
  }

  /** `validacionForm`: builds the error record and reports whether it
      stayed empty. */
  method ValidacionForm(data: FormData) returns (errors: map<Field, string>, valid: bool)
    ensures errors == ValidationErrors(data)
    ensures valid <==> errors == map[]
    ensures valid <==> IsValid(data)
  {
    var en, ed, ec := NombreError(data.nombre), DocumentoError(data.documento), CorreoError(data.correo);
    errors := FillErrors(en, ed, ec);
    valid := |errors| == 0;
    assert valid <==> en.None? && ed.None? && ec.None? by {
      if en.Some? { assert Nombre in errors; }
      if ed.Some? { assert Documento in errors; }
      if ec.Some? { assert Correo in errors; }
    }
  }

  /** The form is valid exactly when the name, the document and the e-mail
      each meet their rule, whatever the reCAPTCHA token holds. */
  lemma ValidIff(data: FormData)
    ensures IsValid(data) <==>
      && Utf16Length(Trim(data.nombre)) >= 3
      && (forall i :: 0 <= i < |data.nombre| ==> IsNameChar(data.nombre[i]))
      && AllDigits(data.documento) && 6 <= |data.documento| <= 15
      && IsEmailShape(data.correo)
    ensures forall token :: IsValid(data.Set(Recaptcha, token)) == IsValid(data)
  {
    NombreAccepted(data.nombre);
    DocumentoAccepted(data.documento);
    CorreoAccepted(data.correo);
  }

  // ---------------------------------------------------------------------
  // Handlers
  // ---------------------------------------------------------------------

  /** `handleInputChange`: store the value in the named field and, when that
      field shows an error, clear it; nothing else changes. */
  function HandleInputChange(s: State, f: Field, value: string): (t: State)
    ensures t.formData.Get(f) == value
    ensures forall g :: g != f ==> t.formData.Get(g) == s.formData.Get(g)
    ensures f in t.errors ==> t.errors[f] == ""
    ensures forall g :: g != f ==> (g in t.errors <==> g in s.errors)
    ensures forall g :: g != f && g in s.errors ==> t.errors[g] == s.errors[g]
    ensures t.isSubmitting == s.isSubmitting && t.submitSuccess == s.submitSuccess
  {
    var errors := if f in s.errors && s.errors[f] != "" then s.errors - {f} else s.errors;
    State(s.formData.Set(f, value), errors, s.isSubmitting, s.submitSuccess)
  }

  /** Editing one field does not change the verdict on any other field. */
  lemma EditKeepsOtherVerdicts(s: State, f: Field, value: string, g: Field)
    requires g != f
    ensures FieldError(HandleInputChange(s, f, value).formData, g) == FieldError(s.formData, g)
  {
  }

  /** `handleReset`: four empty fields, no errors, no success message. */
  function HandleReset(s: State): (t: State)
    ensures forall f :: t.formData.Get(f) == ""
    ensures t.errors == map[] && !t.submitSuccess
    ensures t.isSubmitting == s.isSubmitting
  {
    State(FormData("", "", "", ""), map[], s.isSubmitting, false)
  }

  /** Validating a freshly reset form reports the three "required"
      messages and nothing for the token. */
  lemma ResetThenValidate(s: State)
    ensures var errors := ValidationErrors(HandleReset(s).formData);
      && errors.Keys == {Nombre, Documento, Correo}
      && errors[Nombre] == NombreRequerido
      && errors[Documento] == DocumentoRequerido
      && errors[Correo] == CorreoRequerido
  {
    var errors := ValidationErrors(HandleReset(s).formData);
    assert Recaptcha !in errors;
    assert Nombre in errors && Documento in errors && Correo in errors;
  }

  /** The synchronous part of `handleSubmit`: validate, store the error
      record, and stop there when a field fails; otherwise mark the form as
      submitting. `proceeds` says whether the submission goes ahead. */
  method HandleSubmit(s: State) returns (t: State, proceeds: bool)
    ensures t.errors == ValidationErrors(s.formData)
    ensures proceeds <==> IsValid(s.formData)
    ensures t.formData == s.formData && t.submitSuccess == s.submitSuccess
    ensures proceeds ==> t.isSubmitting
    ensures !proceeds ==> t.isSubmitting == s.isSubmitting
  {
    var errors, valid := ValidacionForm(s.formData);
    t := s.(errors := errors);
    if !valid {
      proceeds := false;
      return;
    }
    t := t.(isSubmitting := true);
    proceeds := true;
  }
}
