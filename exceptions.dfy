/**
 * Thrown values.  NestJS HTTP exceptions carry a status, the response body handed to the
 * constructor (or built by it) and a message; the other kinds are errors raised by Prisma, by
 * jsonwebtoken, by the JavaScript runtime or by `new Error(...)`.
 */
module Exceptions {
  import opened JsValue

  /** The class of an HttpException, as far as `instanceof` tests in the core distinguish them. */
  datatype HttpKind =
    | UnauthorizedKind
    | NotFoundKind
    | ConflictKind
    | BadRequestKind
    | UnprocessableKind
    | PlainHttpKind

  datatype Exception =
    | HttpException(kind: HttpKind, status: int, response: Value, message: string)
    /** Prisma.PrismaClientKnownRequestError with its error code ("P2002", "P2025", ...). */
    | StoreError(code: string)
    /** Prisma.PrismaClientValidationError: a query argument of the wrong type. */
    | StoreValidationError
    /** jsonwebtoken's JsonWebTokenError or TokenExpiredError, by name. */
    | JwtError(name: string)
    /** A TypeError raised by the runtime (a property read on undefined). */
    | TypeError
    /** `new Error(message)`. */
    | PlainError(message: string)

  /**
   * The body NestJS builds for a built-in exception constructed with a message:
   * `{ statusCode, message, error }`.
   */
  function BuiltInBody(status: int, message: string, error: string): Value {
    Obj(map["statusCode" := Num(status), "message" := Str(message), "error" := Str(error)])
  }

  /** `new UnauthorizedException(message)`. */
  function Unauthorized(message: string): Exception {
    HttpException(UnauthorizedKind, 401, BuiltInBody(401, message, "Unauthorized"), message)
  }

  /** `new UnauthorizedException()`: the body is `{ statusCode: 401, message: "Unauthorized" }`. */
  function UnauthorizedDefault(): Exception {
    HttpException(UnauthorizedKind, 401,
      Obj(map["statusCode" := Num(401), "message" := Str("Unauthorized")]), "Unauthorized")
  }

  /** `new NotFoundException(message)`. */
  function NotFound(message: string): Exception {
    HttpException(NotFoundKind, 404, BuiltInBody(404, message, "Not Found"), message)
  }

  /** `new ConflictException(message)`. */
  function Conflict(message: string): Exception {
    HttpException(ConflictKind, 409, BuiltInBody(409, message, "Conflict"), message)
  }

  /** `new BadRequestException(message)`. */
  function BadRequest(message: string): Exception {
    HttpException(BadRequestKind, 400, BuiltInBody(400, message, "Bad Request"), message)
  }

  /** `new HttpException(text, status)`: the response is the string itself. */
  function PlainHttp(text: string, status: int): Exception {
    HttpException(PlainHttpKind, status, Str(text), text)
  }
}
