/**
 The exceptions that can reach the polling loop's handlers: the three
 exception classes of exceptions.py, the built-in ones the response and
 status checks raise, and any other exception (such as the decode error
 `.json()` raises for a body that is not JSON). Each variant carries the
 text `str()` of the exception prints. The loop hands the exception object
 itself, not that text, to `send_message`.
 */
module Errors {

  datatype Error =
    /** exceptions.ParseValueException: a homework record without a name or with an unknown status. */
    | ParseValue(message: string)
    /** exceptions.ErrorAnswerException: the API could not be reached or did not answer 200. */
    | ErrorAnswer(message: string)
    /** exceptions.EmptyResponseApiException: the answer has no `homeworks` key. */
    | EmptyResponseApi(message: string)
    /** Built-in TypeError: the answer or its `homeworks` field has the wrong shape. */
    | TypeError(message: string)
    /** Built-in AttributeError: a homework record that is not a dictionary has no `.get`. */
    | AttributeError(message: string)
    /** Any other exception, named by its class: for one, the decode error of a body that is not JSON. */
    | Other(kind: string, message: string)
}
