/** The exceptions the modelled services raise, as one error datatype. */
module Errors {

  datatype Error =
    // source/backend/users-service/app/utils/exceptions.py (auth and user services)
    | InvalidCredentials
    | InvalidToken
    | TokenExpired
    | UserNotFound
    | UserAlreadyExists
    // Litestar / FastAPI HTTP exceptions carrying a detail message
    | NotFound(detail: string)                  // NotFoundException, 404
    | NotAuthorized                             // NotAuthorizedException, 401
    | EmailValidation(detail: string)           // EmailValidationException, 400
    | Integrity(detail: string)                 // IntegrityException, 409
    | Http(status: int, detail: string)         // HTTPException with a status code
    | HttpWithHeaders(status: int, detail: string, headers: map<string, string>)
    // exceptions raised by library code, propagating unchanged
    | IntegrityViolation                        // IntegrityError (SQLAlchemy, advanced_alchemy)
    | RepositoryNotFound                        // advanced_alchemy NotFoundError
    | DatabaseError(message: string)            // a statement the database refuses
    // Python runtime errors the code as written runs into
    | TypeError(message: string)
    | AttributeError(message: string)
    | KeyError(key: string)
    | RuntimeError(message: string)
    | UnboundLocalError(message: string)
    | ValueError(message: string)
}
