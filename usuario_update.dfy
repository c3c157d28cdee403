/**
 * The partial-update request for a user's profile (`UsuarioUpdateDTO`): each of
 * nome, telefone and senha may be absent (`null`), and a value that is empty or
 * only whitespace counts as absent too.
 */
module UsuarioUpdate {
  import opened Wrappers

  datatype UsuarioUpdateDto = UsuarioUpdateDto(nome: Option<string>, telefone: Option<string>, senha: Option<string>)

  /** The minimum length of a new password (`@Size(min = 6)`). */
  const SenhaTamanhoMinimo: int := 6

  /** `Character.isWhitespace`: the Unicode space, line and paragraph separators other
      than the no-break spaces U+00A0, U+2007 and U+202F, plus the controls U+0009 to
      U+000D and U+001C to U+001F. */
  predicate IsWhitespace(c: char)
  {
    || ('\U{9}' <= c <= '\U{D}')
    || ('\U{1C}' <= c <= '\U{20}')
    || c == '\U{1680}'
    || ('\U{2000}' <= c <= '\U{200A}' && c != '\U{2007}')
    || c == '\U{2028}' || c == '\U{2029}'
    || c == '\U{205F}' || c == '\U{3000}'
  }

  /** `String.isBlank()`: empty, or whitespace only. */
  predicate IsBlank(s: string)
  {
    forall i :: 0 <= i < |s| ==> IsWhitespace(s[i])
  }

  /** A field the request fills in: present (`!= null`) and not blank. */
  predicate Preenchido(campo: Option<string>)
  {
    campo.Some? && !IsBlank(campo.value)
  }

  /** The field holds a value with at least one character that is not whitespace. */
  ghost predicate TemCaractereVisivel(campo: Option<string>)
  {
    campo.Some? && exists i :: 0 <= i < |campo.value| && !IsWhitespace(campo.value[i])
  }

  /** `isAtLeastOneFieldPresent()`: the request changes something, that is, one of its
      three fields holds a character that is not whitespace. */
  function IsAtLeastOneFieldPresent(dto: UsuarioUpdateDto): (b: bool)
    ensures b <==> TemCaractereVisivel(dto.nome) || TemCaractereVisivel(dto.telefone) || TemCaractereVisivel(dto.senha)
  {
    Preenchido(dto.nome) || Preenchido(dto.telefone) || Preenchido(dto.senha)
  }

  /** A request with all three fields `null` changes nothing. */
  lemma AllNullNotPresent()
    ensures !IsAtLeastOneFieldPresent(UsuarioUpdateDto(None, None, None))
  {
  }

  /** Whitespace-only values count as absent: a request whose every field is `null` or
      whitespace only is refused, however long the whitespace is. */
  lemma WhitespaceOnlyIsAbsent(dto: UsuarioUpdateDto)
    requires dto.nome.None? || IsBlank(dto.nome.value)
    requires dto.telefone.None? || IsBlank(dto.telefone.value)
    requires dto.senha.None? || IsBlank(dto.senha.value)
    ensures !IsAtLeastOneFieldPresent(dto)
  {
  }

  /** `String.length()`: the number of UTF-16 code units, so a character outside the
      Basic Multilingual Plane (above U+FFFF) counts twice. */
  function Utf16Length(s: string): (n: nat)
    ensures |s| <= n <= 2 * |s|
    ensures (forall i :: 0 <= i < |s| ==> s[i] as int < 0x1_0000) ==> n == |s|
    ensures (forall i :: 0 <= i < |s| ==> s[i] as int >= 0x1_0000) ==> n == 2 * |s|
    ensures |s| == 1 ==> n == (if s[0] as int >= 0x1_0000 then 2 else 1)
  {
    if s == [] then 0
    else (if s[0] as int >= 0x1_0000 then 2 else 1) + Utf16Length(s[1..])
  }

  /** The length of a concatenation is the sum of the lengths; with the length of a
      single character this fixes `Utf16Length` on every string. */
  lemma {:induction false} Utf16LengthConcat(a: string, b: string)
    ensures Utf16Length(a + b) == Utf16Length(a) + Utf16Length(b)
  {
    if a == [] {
      assert a + b == b;
    } else {
      assert (a + b)[0] == a[0] && (a + b)[1..] == a[1..] + b;
      Utf16LengthConcat(a[1..], b);
    }
  }

  /** `@Size(min = 6)` on senha: a `null` password passes (it is simply not changed),
      a supplied one needs a `length()` of at least six, whitespace included. Six
      characters always suffice, fewer than three never do, and for text within the
      Basic Multilingual Plane the bound is exactly six characters. */
  function SenhaTamanhoValido(dto: UsuarioUpdateDto): (b: bool)
    ensures b <==> dto.senha.None? || Utf16Length(dto.senha.value) >= SenhaTamanhoMinimo
    ensures dto.senha.None? ==> b
    ensures dto.senha.Some? && |dto.senha.value| >= SenhaTamanhoMinimo ==> b
    ensures dto.senha.Some? && 2 * |dto.senha.value| < SenhaTamanhoMinimo ==> !b
    ensures dto.senha.Some? && (forall i :: 0 <= i < |dto.senha.value| ==> dto.senha.value[i] as int < 0x1_0000) ==>
              (b <==> |dto.senha.value| >= SenhaTamanhoMinimo)
  {
    dto.senha.None? || Utf16Length(dto.senha.value) >= SenhaTamanhoMinimo
  }

  /** The size constraint at its boundary: "12345" is refused and "123456" accepted;
      three characters outside the Basic Multilingual Plane make six code units and are
      accepted, two of them and one letter make five and are refused, two of them and
      two letters, interleaved, make six and are accepted. */
  lemma SenhaTamanhoBoundary(nome: Option<string>, telefone: Option<string>)
    ensures SenhaTamanhoValido(UsuarioUpdateDto(nome, telefone, None))
    ensures !SenhaTamanhoValido(UsuarioUpdateDto(nome, telefone, Some("12345")))
    ensures SenhaTamanhoValido(UsuarioUpdateDto(nome, telefone, Some("123456")))
    ensures SenhaTamanhoValido(UsuarioUpdateDto(nome, telefone, Some("\U{1F600}\U{1F600}\U{1F600}")))
    ensures !SenhaTamanhoValido(UsuarioUpdateDto(nome, telefone, Some("\U{1F600}\U{1F600}a")))
    ensures SenhaTamanhoValido(UsuarioUpdateDto(nome, telefone, Some("\U{1F600}a\U{1F600}a")))
  {
  }
}
