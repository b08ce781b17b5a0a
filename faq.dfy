/**
 * The FAQ page: an accordion of six questions in which at most one item is open. Clicking the
 * open item closes it; clicking another item opens that one instead.
 */
module FaqPage {
  import opened Wrappers

  datatype Faq = Faq(q: string, a: string)

  const FAQS: seq<Faq> := [
    Faq("Logística de entrega", "Despachos en Popayán y Cauca. Pedidos >$1M envío gratis. Entregas AM/PM."),
    Faq("Política de Precios", "Precios mayoristas disponibles para profesionales registrados. Igualación de cotizaciones."),
    Faq("Métodos de Pago", "Efectivo, Transferencias, Tarjetas (Datafono) y Crédito ADDI."),
    Faq("Garantía Técnica", "Respaldo directo. Cumplimiento RETIE. Cambios inmediatos por defecto."),
    Faq("Cotizaciones", "Válidas por 15 días. Envíanos tu listado por WhatsApp."),
    Faq("Devoluciones", "5 días hábiles. Material en estado original. No aplica para cables cortados.")
  ]

  /** The open item after clicking item `i`: none when `i` was open, `i` otherwise. */
  function Clicked(active: Option<int>, i: int): (r: Option<int>)
    ensures r.None? <==> active == Some(i)
    ensures r.Some? ==> r.value == i
  {
    if active == Some(i) then None else Some(i)
  }

  /** Clicking an item twice from a state where it was open, or where nothing was open, restores that state. */
  lemma ClickTwiceRestores(active: Option<int>, i: int)
    requires active.None? || active == Some(i)
    ensures Clicked(Clicked(active, i), i) == active
  {
  }

  /** Clicking a closed item twice when another one was open leaves everything closed. */
  lemma ClickTwiceFromOther(j: int, i: int)
    requires j != i
    ensures Clicked(Clicked(Some(j), i), i).None?
  {
  }

  /** How one item renders: its answer, the Minus icon and the highlighted title go together. */
  datatype ItemView = ItemView(question: string, answerShown: bool, minusIcon: bool, highlighted: bool)

  /** Item `i` is expanded exactly when it is the open one. */
  function ItemOf(active: Option<int>, i: nat, faq: Faq): (v: ItemView)
    ensures v.question == faq.q
    ensures v.answerShown <==> active == Some(i as int)
    ensures v.minusIcon == v.answerShown && v.highlighted == v.answerShown
  {
    var open := active == Some(i as int);
    ItemView(faq.q, open, open, open)
  }

  /** The accordion: one view per question, in order. */
  function Items(active: Option<int>): (r: seq<ItemView>)
    ensures |r| == |FAQS|
    ensures forall i :: 0 <= i < |r| ==> r[i] == ItemOf(active, i, FAQS[i])
  {
    seq(|FAQS|, i requires 0 <= i < |FAQS| => ItemOf(active, i, FAQS[i]))
  }

  /** At most one item shows its answer, and it is the open one. */
  lemma AtMostOneExpanded(active: Option<int>)
    ensures forall i, j ::
              (0 <= i < |Items(active)| && 0 <= j < |Items(active)|
               && Items(active)[i].answerShown && Items(active)[j].answerShown) ==> i == j
    ensures forall i :: 0 <= i < |Items(active)| && Items(active)[i].answerShown ==> active == Some(i)
  {
  }

  /** When the page opens, exactly the first item shows its answer. */
  lemma InitiallyFirstOpen()
    ensures Items(Some(0))[0].answerShown
    ensures forall i :: 1 <= i < |Items(Some(0))| ==> !Items(Some(0))[i].answerShown
  {
  }

  /** The page's state: the index of the open item, if any. */
  class Accordion {
    var activeIndex: Option<int>

    /** The first item is open. */
    constructor()
      ensures activeIndex == Some(0)
    {
      activeIndex := Some(0);
    }

    /** What the accordion currently shows. */
    function View(): seq<ItemView>
      reads this
    {
      Items(activeIndex)
    }

    /** Clicking the header of item `i`. */
    method Click(i: int)
      modifies this
      ensures activeIndex == Clicked(old(activeIndex), i)
    {
      if activeIndex == Some(i) {
        activeIndex := None;
      } else {
        activeIndex := Some(i);
      }
    }
  }
}
