/** The error codes of package_installer.c. */
module InstallErrors {
  const ERROR_ARCHIVE := -0x7102
  const ERROR_ARCHIVE_PATH := -0x7103
  const ERROR_ARCHIVE_TYPE := -0x7104
  const ERROR_ARCHIVE_SIZE := -0x7105
  const ERROR_SFO := -0x7106
  const ERROR_TITLE_ID := -0x7107
  const ERROR_MEMORY := -0x7108
  const ERROR_IO := -0x7109
}
