/**
 * The shared Button: which element it renders (an external anchor, a router link or a native
 * button) and the class string it composes from the base styles, the variant, the size and the
 * caller's extra classes. Optional properties the caller did not pass are None.
 */
module UI {
  import opened Wrappers
  import opened Text

  datatype Variant = Primary | Secondary | Outline | Ghost
  datatype Size = Small | Medium | Large
  datatype ButtonType = ButtonKind | SubmitKind | ResetKind

  datatype ButtonProps = ButtonProps(
    variant: Option<Variant>,
    size: Option<Size>,
    className: Option<string>,
    href: Option<string>,
    to: Option<string>,
    buttonType: Option<ButtonType>)

  /** The element a Button renders, with the attributes the choice decides. */
  datatype Element =
    | Anchor(href: string, target: string, rel: string, classes: string)
    | RouterLink(to: string, classes: string)
    | NativeButton(buttonType: ButtonType, classes: string)

  /** The classes every Button has: the source's literal, written in pieces. */
  const BASE_STYLES: string := "inline-flex " + "items-center " + "justify-center " + "gap-2 " + "rounded-full "
                                + "font-heading " + "font-bold " + "uppercase " + "tracking-widest "
                                + "transition-all " + "duration-300 " + "active:scale-95"

  function VariantClass(v: Variant): string {
    match v
    case Primary => "bg-primary text-secondary hover:bg-white hover:text-secondary shadow-lg hover:shadow-xl"
    case Secondary => "bg-secondary text-white hover:bg-primary hover:text-secondary shadow-lg hover:shadow-xl"
    case Outline => "bg-transparent border-2 border-primary text-primary hover:bg-primary hover:text-secondary"
    case Ghost => "bg-transparent text-secondary hover:bg-slate-100"
  }

  function SizeClass(s: Size): string {
    match s
    case Small => "text-xs px-4 py-2"
    case Medium => "text-sm px-6 py-3"
    case Large => "text-sm px-8 py-4"
  }

  /** The class string for a variant, a size and the caller's classes. */
  function Classes(v: Variant, s: Size, extra: string): string {
    BASE_STYLES + " " + VariantClass(v) + " " + SizeClass(s) + " " + extra
  }

  /** The class string is the four parts joined by single spaces. */
  lemma ClassesIsJoin(v: Variant, s: Size, extra: string)
    ensures Classes(v, s, extra) == Join([BASE_STYLES, VariantClass(v), SizeClass(s), extra], " ")
  {
    JoinOfFour(BASE_STYLES, VariantClass(v), SizeClass(s), extra, " ");
  }

  /** The class string of a Button: the variant defaults to primary, the size to medium, the extra classes to none. */
  function ClassesOf(props: ButtonProps): string {
    Classes(if props.variant.Some? then props.variant.value else Primary,
            if props.size.Some? then props.size.value else Medium,
            if props.className.Some? then props.className.value else "")
  }

  /** Without extra classes the string ends in a space, after the size class. */
  lemma NoExtraEndsInSpace(props: ButtonProps)
    requires props.className.None?
    ensures ClassesOf(props) == BASE_STYLES + " " + VariantClass(if props.variant.Some? then props.variant.value else Primary)
                                + " " + SizeClass(if props.size.Some? then props.size.value else Medium) + " "
  {
  }

  /** A Button with nothing passed is primary and medium. */
  lemma DefaultClasses(props: ButtonProps)
    requires props.variant.None? && props.size.None? && props.className.None?
    ensures ClassesOf(props) == Classes(Primary, Medium, "")
  {
  }

  /**
   * The element: an anchor opening a new tab when `href` is non-empty, whatever `to` is; else a
   * router link when `to` is non-empty; else a native button whose type defaults to "button".
   */
  function Render(props: ButtonProps): (e: Element)
    ensures e.classes == ClassesOf(props)
    ensures e.Anchor? <==> props.href.Some? && props.href.value != ""
    ensures e.Anchor? ==> e.href == props.href.value && e.target == "_blank" && e.rel == "noopener noreferrer"
    ensures e.RouterLink? <==> (props.href.None? || props.href.value == "") && props.to.Some? && props.to.value != ""
    ensures e.RouterLink? ==> e.to == props.to.value
    ensures e.NativeButton? ==> e.buttonType == (if props.buttonType.Some? then props.buttonType.value else ButtonKind)
  {
    var classes := ClassesOf(props);
    if props.href.Some? && props.href.value != "" then
      Anchor(props.href.value, "_blank", "noopener noreferrer", classes)
    else if props.to.Some? && props.to.value != "" then
      RouterLink(props.to.value, classes)
    else
      NativeButton(if props.buttonType.Some? then props.buttonType.value else ButtonKind, classes)
  }

  /** With neither `href` nor `to` a Button is a native button of type "button" unless told otherwise. */
  lemma PlainButton(props: ButtonProps)
    requires props.href.None? && props.to.None? && props.buttonType.None?
    ensures Render(props) == NativeButton(ButtonKind, ClassesOf(props))
  {
  }
}
