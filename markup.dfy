/** The inline content the renderer builds, in place of the HTML library's
    element objects. A `Span` holds its children in order, so a type cell
    nests one span per recursive rendering step, as the page does. */
module Markup {

  datatype Inline =
    | Text(s: string)                   // escaped text
    | Raw(html: string)                 // ready-made HTML inserted as is
    | Link(linkText: string, href: string) // <a href=...>linkText</a>
    | Span(children: seq<Inline>)       // <span class="type">...</span>
    | Emph(s: string)                   // <i>
    | Samp(s: string)                   // <samp>
    | Code(s: string)                   // <code>
    | Time(display: string, iso: string)
}
