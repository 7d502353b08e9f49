/** TemplateDirectMapper.doMapping: turns a template name such as
    "about,directions,Driving.vm" into a class name such as
    "about.directions.Driving". */
module TemplateDirectMapper {
  import opened Wrappers
  import opened Errors
  import opened JavaLang

  /** TemplateService.TEMPLATE_PARTS_SEPARATOR */
  const TEMPLATE_PARTS_SEPARATOR: char := ','
  /** TemplateService.EXTENSION_SEPARATOR */
  const EXTENSION_SEPARATOR: char := '.'

  /** A component without everything from its last '.' onward. */
  function StripExtension(name: string): string {
    var dot := LastIndexOf(name, EXTENSION_SEPARATOR);
    if dot < 0 then name else name[..dot]
  }

  /** Only the text from the last '.' onward is removed: the component is
      the result followed by nothing, or by a suffix that starts with the
      only '.' after the result. */
  lemma StripExtensionRemovesSuffix(name: string)
    ensures var r := StripExtension(name);
      && StartsWith(name, r)
      && (EXTENSION_SEPARATOR !in name ==> r == name)
      && (EXTENSION_SEPARATOR in name ==>
            |r| < |name| && name[|r|] == EXTENSION_SEPARATOR
            && EXTENSION_SEPARATOR !in name[|r| + 1..])
  {
  }

  /** The components doMapping joins: the non-empty comma-separated parts
      of the template, the last one without its extension. A template with
      no such part fails on index -1. */
  function MappedComponents(template: string): (r: Result<seq<string>, Error>)
  {
    var components := Tokens(template, TEMPLATE_PARTS_SEPARATOR);
    if |components| == 0 then Failure(IndexOutOfBounds(-1))
    else
      var last := |components| - 1;
      Success(components[..last] + [StripExtension(components[last])])
  }

  /** TemplateDirectMapper.doMapping with the mapper's separator. */
  function DoMapping(template: string, separator: string): Result<string, Error>
  {
    match MappedComponents(template)
    case Success(components) => Success(Join(components, separator))
    case Failure(e) => Failure(e)
  }

  /** There are exactly as many output components as non-empty input
      components; all but the last are copied, the last loses its extension. */
  lemma MappedComponentsShape(template: string)
    ensures var parts := Tokens(template, TEMPLATE_PARTS_SEPARATOR);
      match MappedComponents(template)
      case Success(c) =>
        && |parts| > 0 && |c| == |parts|
        && (forall i :: 0 <= i < |c| - 1 ==> c[i] == parts[i])
        && c[|c| - 1] == StripExtension(parts[|parts| - 1])
      case Failure(e) => parts == [] && e == IndexOutOfBounds(-1)
  {
  }

  /** doMapping fails exactly on templates made of separators only (the
      empty template included). */
  lemma DoMappingFailsIff(template: string, separator: string)
    ensures DoMapping(template, separator).Failure? <==>
            forall i :: 0 <= i < |template| ==> template[i] == TEMPLATE_PARTS_SEPARATOR
  {
    TokensEmptyIff(template, TEMPLATE_PARTS_SEPARATOR);
  }

  /** With a one-char separator, the mapped name splits back into the
      mapped components when no component becomes empty or holds it. */
  lemma DoMappingSplitsBack(template: string, d: char)
    requires MappedComponents(template).Success?
    requires var c := MappedComponents(template).value;
      forall i :: 0 <= i < |c| ==> |c[i]| > 0 && d !in c[i]
    ensures DoMapping(template, [d]).Success?
    ensures Tokens(DoMapping(template, [d]).value, d) == MappedComponents(template).value
  {
    TokensOfJoin(MappedComponents(template).value, d);
  }

  lemma ThreeTokens(a: string, b: string, c: string)
    requires |a| > 0 && |b| > 0 && |c| > 0
    requires ',' !in a && ',' !in b && ',' !in c
    ensures Tokens(a + [','] + (b + [','] + c), ',') == [a, b, c]
  {
    TokensAfterPrefix(a, ',', b + [','] + c);
    TokensAfterPrefix(b, ',', c);
    TokensOfToken(c, ',');
  }

  lemma ThreePartComponents(a: string, b: string, c: string, ext: string)
    requires |a| > 0 && |b| > 0 && |c| > 0
    requires ',' !in a && ',' !in b && ',' !in c && ',' !in ext && '.' !in ext
    ensures MappedComponents(a + [','] + (b + [','] + (c + ['.'] + ext))) == Success([a, b, c])
  {
    var last := c + ['.'] + ext;
    var template := a + [','] + (b + [','] + last);
    ThreeTokens(a, b, last);
    StripThreePartExtension(c, ext);
    var components := Tokens(template, TEMPLATE_PARTS_SEPARATOR);
    assert components == [a, b, last];
    assert components[..2] + [StripExtension(components[2])] == [a, b, c];
  }

  lemma StripThreePartExtension(c: string, ext: string)
    requires '.' !in ext
    ensures StripExtension(c + ['.'] + ext) == c
  {
    LastIndexOfBeforeSuffix(c, '.', ext);
    assert (c + ['.'] + ext)[..|c|] == c;
  }

  /** A three-part template whose last part has an extension maps to the
      three parts, extension dropped, joined by the separator: the shape of
      "about,directions,Driving.vm" mapping to "about.directions.Driving". */
  lemma ThreePartMapping(a: string, b: string, c: string, ext: string, separator: string)
    requires |a| > 0 && |b| > 0 && |c| > 0
    requires ',' !in a && ',' !in b && ',' !in c && ',' !in ext && '.' !in ext
    ensures DoMapping(a + [','] + (b + [','] + (c + ['.'] + ext)), separator)
            == Success(a + separator + b + separator + c)
  {
    ThreePartComponents(a, b, c, ext);
    JoinThree(a, b, c, separator);
  }
}
