/** The failures the style code raises. Every one of them is an
    FB2toPDFException in the program; the constructor records what the
    exception's message names. */
module Errors {

  datatype Error =
    | InvalidStyle(token: string)          // emphasis token outside the vocabulary
    | InvalidAlignment(token: string)      // alignment token outside the vocabulary
    | StylesheetNotSet                     // a lookup was needed but no stylesheet is attached
    | UnknownStyle(name: string)           // the stylesheet holds no style of that name
    | UnknownFontFamily(name: string)      // the stylesheet holds no font family of that name
    | FontFamilyNotDefined(style: string)  // no style of the chain sets a family
    | FontSizeNotDefined(style: string)    // no style of the chain sets a size
    | RelativeDimension                    // absolute points asked of a relative length
}
